/**
 The collector's peer-connection manager: pending connections with their published
 filter, and the rotating queue of eligible peers
 (gossip_collector/src/peer_conn_manager.rs), fed by the controller in chunks
 (observer_common/src/collector_client.rs, gossip_collector/src/grpc_server.rs).
 */
module PeerConn {
  import opened Prelude

  datatype Peer = Peer(pubkey: PublicKey, addrs: seq<string>)

  datatype PeerSpec = PeerSpec(pubkey: PublicKey, addr: string)

  datatype Pending = Pending(peer: PeerSpec, connTime: int)

  datatype Msg =
    | AddPendingConn(conn: Pending)
    | RemovePendingConn(spec: PeerSpec)
    | SweepPending(startupDelay: int)
    | GetPending
    | PeekEligible
    | AddEligible(peer: Peer)
    | GetEligibleCount
    | RotateEligible
    | EmptyEligible

  datatype Reply = NoReply | PendingList(conns: seq<Pending>) | Front(peer: Option<Peer>) | EligibleCount(n: nat)

  /** `filter` is the value in the watch channel and `version` how often it was replaced. */
  datatype State =
    State(eligible: seq<Peer>, pubkeys: set<PublicKey>, pending: seq<Pending>, filter: set<string>, version: nat)

  const Start := State([], {}, [], {}, 0)

  function BuildFilter(pending: seq<Pending>): set<string> {
    set p | p in pending :: p.peer.pubkey
  }

  function Notify(s: State, pending: seq<Pending>): State {
    s.(pending := pending, filter := BuildFilter(pending), version := s.version + 1)
  }

  function RotateLeft(eligible: seq<Peer>): seq<Peer> {
    if eligible == [] then [] else eligible[1..] + [eligible[0]]
  }

  /** The manager's state after one message, handled at time `now`. */
  function Handle(s: State, m: Msg, now: int): State {
    match m
    case AddPendingConn(conn) => Notify(s, s.pending + [conn])
    case RemovePendingConn(spec) => Notify(s, Filter((p: Pending) => p.peer != spec, s.pending))
    case SweepPending(delay) => Notify(s, Filter((p: Pending) => now - p.connTime < delay, s.pending))
    case GetPending => s
    case PeekEligible => s
    case AddEligible(peer) =>
      if peer.pubkey in s.pubkeys then s
      else s.(pubkeys := s.pubkeys + {peer.pubkey}, eligible := s.eligible + [peer])
    case GetEligibleCount => s
    case RotateEligible => s.(eligible := RotateLeft(s.eligible))
    case EmptyEligible => s.(eligible := [], pubkeys := {})
  }

  const U32_RANGE := 0x1_0000_0000

  function ReplyTo(s: State, m: Msg): Reply {
    match m
    case GetPending => PendingList(s.pending)
    case PeekEligible => Front(if s.eligible == [] then None else Some(s.eligible[0]))
    case GetEligibleCount => EligibleCount(|s.eligible| % U32_RANGE)
    case _ => NoReply
  }

  /** No pubkey is queued twice, the pubkey set matches the queue, and the published
      filter names exactly the pending peers. */
  ghost predicate Inv(s: State) {
    && (forall i, j :: 0 <= i < j < |s.eligible| ==> s.eligible[i].pubkey != s.eligible[j].pubkey)
    && (forall k :: k in s.pubkeys <==> exists i :: 0 <= i < |s.eligible| && s.eligible[i].pubkey == k)
    && s.filter == BuildFilter(s.pending)
  }

  lemma HandleKeepsInv(s: State, m: Msg, now: int)
    requires Inv(s)
    ensures Inv(Handle(s, m, now))
  {
    match m
    case AddEligible(peer) =>
      if peer.pubkey !in s.pubkeys {
        var t := Handle(s, m, now);
        forall k ensures k in t.pubkeys <==> exists i :: 0 <= i < |t.eligible| && t.eligible[i].pubkey == k {
          if k in s.pubkeys {
            var i :| 0 <= i < |s.eligible| && s.eligible[i].pubkey == k;
            assert t.eligible[i].pubkey == k;
          } else if k == peer.pubkey {
            assert t.eligible[|s.eligible|].pubkey == k;
          }
        }
      }
    case RotateEligible =>
      if s.eligible != [] {
        var e, f := s.eligible, RotateLeft(s.eligible);
        forall k | k in s.pubkeys ensures exists i :: 0 <= i < |f| && f[i].pubkey == k {
          var i :| 0 <= i < |e| && e[i].pubkey == k;
          assert f[if i == 0 then |f| - 1 else i - 1] == e[i];
        }
      }
    case _ =>
  }

  /** The actor with its fields updated in place. */
  class PeerConnManager {
    var eligiblePeers: seq<Peer>
    var eligiblePubkeys: set<PublicKey>
    var pendingConns: seq<Pending>
    var watchValue: set<string>
    var watchVersion: nat

    ghost function View(): State
      reads this
    {
      State(eligiblePeers, eligiblePubkeys, pendingConns, watchValue, watchVersion)
    }

    constructor ()
      ensures View() == Start && Inv(View())
    {
      eligiblePeers, eligiblePubkeys, pendingConns, watchValue, watchVersion := [], {}, [], {}, 0;
    }

    method SendReplace()
      modifies `watchValue, `watchVersion
      ensures watchValue == BuildFilter(pendingConns) && watchVersion == old(watchVersion) + 1
    {
      watchValue, watchVersion := BuildFilter(pendingConns), watchVersion + 1;
    }

    method HandleMsg(m: Msg, now: int) returns (reply: Reply)
      requires Inv(View())
      modifies this
      ensures View() == Handle(old(View()), m, now) && Inv(View())
      ensures reply == ReplyTo(old(View()), m)
    {
      HandleKeepsInv(View(), m, now);
      reply := NoReply;
      match m {
        case AddPendingConn(conn) =>
          pendingConns := pendingConns + [conn];
          SendReplace();
        case RemovePendingConn(spec) =>
          pendingConns := Filter((p: Pending) => p.peer != spec, pendingConns);
          SendReplace();
        case SweepPending(delay) =>
          pendingConns := Filter((p: Pending) => now - p.connTime < delay, pendingConns);
          SendReplace();
        case GetPending => reply := PendingList(pendingConns);
        case PeekEligible => reply := Front(if eligiblePeers == [] then None else Some(eligiblePeers[0]));
        case AddEligible(peer) =>
          if peer.pubkey !in eligiblePubkeys {
            eligiblePubkeys := eligiblePubkeys + {peer.pubkey};
            eligiblePeers := eligiblePeers + [peer];
          }
        case GetEligibleCount => reply := EligibleCount(|eligiblePeers| % U32_RANGE);
        case RotateEligible =>
          if eligiblePeers != [] {
            eligiblePeers := eligiblePeers[1..] + [eligiblePeers[0]];
          }
        case EmptyEligible => eligiblePeers, eligiblePubkeys := [], {};
      }
    }
  }

  // ----- Pending connections

  /** The filter names exactly the peers with a pending connection, and a change of the
      list is published. */
  ghost predicate Published(s: State, t: State) {
    && t.version == s.version + 1
    && forall k :: k in t.filter <==> exists i :: 0 <= i < |t.pending| && t.pending[i].peer.pubkey == k
  }

  ghost predicate SameQueue(s: State, t: State) {
    s.eligible == t.eligible && s.pubkeys == t.pubkeys
  }

  lemma PublishedBy(s: State, pending: seq<Pending>)
    ensures Published(s, Notify(s, pending)) && SameQueue(s, Notify(s, pending))
  {
    forall i | 0 <= i < |pending| ensures pending[i].peer.pubkey in BuildFilter(pending) {
      assert pending[i] in pending;
    }
  }

  /** Adding a pending connection appends it. */
  lemma PendingAdded(s: State, conn: Pending, now: int)
    ensures var t := Handle(s, AddPendingConn(conn), now);
            t.pending == s.pending + [conn] && Published(s, t) && SameQueue(s, t)
  {
    PublishedBy(s, s.pending + [conn]);
  }

  /** Removing one keeps exactly the entries for other peers or addresses, in order and as
      often as they were there. */
  lemma PendingRemoved(s: State, spec: PeerSpec, now: int) returns (kept: seq<nat>)
    ensures var t := Handle(s, RemovePendingConn(spec), now);
            && Selects(s.pending, t.pending, kept) && Published(s, t) && SameQueue(s, t)
            && forall j :: 0 <= j < |s.pending| ==> (j in kept <==> s.pending[j].peer != spec)
  {
    kept := FilterSelects((p: Pending) => p.peer != spec, s.pending);
    PublishedBy(s, Filter((p: Pending) => p.peer != spec, s.pending));
  }

  /** A sweep keeps exactly the entries younger than the delay, likewise. */
  lemma PendingSwept(s: State, delay: int, now: int) returns (kept: seq<nat>)
    ensures var t := Handle(s, SweepPending(delay), now);
            && Selects(s.pending, t.pending, kept) && Published(s, t) && SameQueue(s, t)
            && forall j :: 0 <= j < |s.pending| ==> (j in kept <==> now - s.pending[j].connTime < delay)
  {
    kept := FilterSelects((p: Pending) => now - p.connTime < delay, s.pending);
    PublishedBy(s, Filter((p: Pending) => now - p.connTime < delay, s.pending));
  }

  /** The other messages leave the pending list and the filter alone.  Emptying leaves no
      peer and no key, so that every peer can be added again; asking changes nothing and
      is answered from the state. */
  lemma QueueMessages(s: State, m: Msg, now: int)
    requires !m.AddPendingConn? && !m.RemovePendingConn? && !m.SweepPending?
    ensures Handle(s, m, now).pending == s.pending && Handle(s, m, now).filter == s.filter
    ensures Handle(s, m, now).version == s.version
    ensures m.EmptyEligible? ==> |Handle(s, m, now).eligible| == 0 && forall k :: k !in Handle(s, m, now).pubkeys
    ensures m.GetPending? || m.PeekEligible? || m.GetEligibleCount? ==> Handle(s, m, now) == s
    ensures m.GetPending? ==> ReplyTo(s, m) == PendingList(s.pending)
    ensures m.PeekEligible? ==>
              ReplyTo(s, m).Front?
              && (ReplyTo(s, m).peer.None? <==> |s.eligible| == 0)
              && (|s.eligible| > 0 ==> ReplyTo(s, m).peer == Some(s.eligible[0]))
    ensures m.GetEligibleCount? ==>
              ReplyTo(s, m).EligibleCount? && ReplyTo(s, m).n < 0x1_0000_0000
              && exists q: nat :: |s.eligible| == q * 0x1_0000_0000 + ReplyTo(s, m).n
  {
    if m.GetEligibleCount? {
      var q: nat := |s.eligible| / 0x1_0000_0000;
      assert |s.eligible| == q * 0x1_0000_0000 + |s.eligible| % 0x1_0000_0000;
    }
  }

  // ----- Rotation

  /** A mailbox message and the time at which it is handled. */
  datatype Entry = Entry(msg: Msg, now: int)

  function After(s: State, trace: seq<Entry>): State {
    if trace == [] then s
    else Handle(After(s, trace[..|trace| - 1]), trace[|trace| - 1].msg, trace[|trace| - 1].now)
  }

  lemma AfterSnoc(s: State, trace: seq<Entry>, e: Entry)
    ensures After(s, trace + [e]) == Handle(After(s, trace), e.msg, e.now)
  {
    assert (trace + [e])[..|trace|] == trace;
  }

  function CountOf(trace: seq<Entry>, m: Msg): nat {
    if trace == [] then 0
    else CountOf(trace[..|trace| - 1], m) + (if trace[|trace| - 1].msg == m then 1 else 0)
  }

  ghost predicate NeverEmptied(trace: seq<Entry>) {
    forall i :: 0 <= i < |trace| ==> trace[i].msg != EmptyEligible
  }

  lemma {:induction false} TraceKeepsInv(s: State, trace: seq<Entry>)
    requires Inv(s)
    ensures Inv(After(s, trace))
  {
    if trace != [] {
      var n := |trace| - 1;
      TraceKeepsInv(s, trace[..n]);
      HandleKeepsInv(After(s, trace[..n]), trace[n].msg, trace[n].now);
    }
  }

  /** After r rotations, the peers originally from position r on are still in front, in
      order, whatever was added or pended meanwhile. */
  lemma {:induction false} RotationKeepsOrder(s: State, trace: seq<Entry>)
    requires NeverEmptied(trace) && CountOf(trace, RotateEligible) <= |s.eligible|
    ensures s.eligible[CountOf(trace, RotateEligible)..] <= After(s, trace).eligible
  {
    if trace != [] {
      var n := |trace| - 1;
      var before := After(s, trace[..n]).eligible;
      var r := CountOf(trace[..n], RotateEligible);
      RotationKeepsOrder(s, trace[..n]);
      if trace[n].msg == RotateEligible {
        assert s.eligible[r] == s.eligible[r..][0] == before[0];
        assert s.eligible[r + 1..] == s.eligible[r..][1..];
        assert s.eligible[r + 1..] <= before[1..];
      }
    }
  }

  /** Calls of next_eligible_peer do not overlap: each peek is followed by its rotation
      before the next peek. */
  ghost predicate OneCallAtATime(trace: seq<Entry>) {
    forall i :: 0 <= i < |trace| && trace[i].msg == PeekEligible ==>
      CountOf(trace[..i], RotateEligible) == CountOf(trace[..i], PeekEligible)
  }

  /** Starvation freedom: however other messages interleave, the peer at position k is
      what the (k+1)-th call returns, and no earlier call returns it. */
  lemma CallReturnsPosition(s: State, trace: seq<Entry>, i: nat, k: nat)
    requires Inv(s) && NeverEmptied(trace) && OneCallAtATime(trace)
    requires i < |trace| && trace[i].msg == PeekEligible && k < |s.eligible|
    requires CountOf(trace[..i], PeekEligible) <= k
    ensures ReplyTo(After(s, trace[..i]), PeekEligible) == Front(Some(s.eligible[k]))
            <==> CountOf(trace[..i], PeekEligible) == k
  {
    var r := CountOf(trace[..i], RotateEligible);
    RotationKeepsOrder(s, trace[..i]);
    assert s.eligible[r..][0] == s.eligible[r];
    if r < k {
      assert s.eligible[r].pubkey != s.eligible[k].pubkey;
    }
  }

  /** A returned peer goes to the back of the queue, so it is returned again after at
      most one call per queued peer. */
  lemma RotatedToBack(s: State, now: int)
    requires Inv(s) && s.eligible != []
    ensures var t := Handle(s, RotateEligible, now);
            && |t.eligible| == |s.eligible| && t.eligible[|t.eligible| - 1] == s.eligible[0]
            && multiset(t.eligible) == multiset(s.eligible)
  {
    assert s.eligible == [s.eligible[0]] + s.eligible[1..];
  }

  // ----- Peer lists arriving in chunks

  /** `peers[i]` is the first occurrence of a pubkey not yet known. */
  ghost predicate IsNew(known: set<PublicKey>, peers: seq<Peer>, i: nat)
    requires i < |peers|
  {
    peers[i].pubkey !in known && forall j :: 0 <= j < i ==> peers[j].pubkey != peers[i].pubkey
  }

  /** The new peers of a list, in order. */
  ghost function NewPeers(known: set<PublicKey>, peers: seq<Peer>): seq<Peer> {
    if peers == [] then []
    else
      var n := |peers| - 1;
      NewPeers(known, peers[..n]) + (if IsNew(known, peers, n) then [peers[n]] else [])
  }

  function AddAll(s: State, peers: seq<Peer>): State {
    if peers == [] then s else Handle(AddAll(s, peers[..|peers| - 1]), AddEligible(peers[|peers| - 1]), 0)
  }

  function PubkeysOf(peers: seq<Peer>): set<PublicKey> {
    set p | p in peers :: p.pubkey
  }

  /** Adding a list extends the queue by the first occurrences of its new pubkeys. */
  lemma {:induction false} AddAllAppendsNew(s: State, peers: seq<Peer>)
    ensures AddAll(s, peers)
            == s.(eligible := s.eligible + NewPeers(s.pubkeys, peers), pubkeys := s.pubkeys + PubkeysOf(peers))
  {
    if peers == [] {
      assert s.eligible + [] == s.eligible;
      assert PubkeysOf([]) == {};
    } else {
      var n := |peers| - 1;
      AddAllAppendsNew(s, peers[..n]);
      NewIffUnknown(s.pubkeys, peers);
      hide PubkeysOf, IsNew;
    }
  }

  lemma {:induction false} NewPeersListed(known: set<PublicKey>, peers: seq<Peer>, p: Peer)
    requires p in NewPeers(known, peers)
    ensures p in peers
  {
    var n := |peers| - 1;
    assert peers == peers[..n] + [peers[n]];
    if p in NewPeers(known, peers[..n]) {
      NewPeersListed(known, peers[..n], p);
    }
  }

  lemma {:induction false} AddAllKeepsInv(s: State, peers: seq<Peer>)
    requires Inv(s)
    ensures Inv(AddAll(s, peers))
  {
    if peers != [] {
      var n := |peers| - 1;
      AddAllKeepsInv(s, peers[..n]);
      HandleKeepsInv(AddAll(s, peers[..n]), AddEligible(peers[n]), 0);
    }
  }

  lemma NewIffUnknown(known: set<PublicKey>, peers: seq<Peer>)
    requires peers != []
    ensures var n := |peers| - 1;
            && (IsNew(known, peers, n) <==> peers[n].pubkey !in known + PubkeysOf(peers[..n]))
            && PubkeysOf(peers) == PubkeysOf(peers[..n]) + {peers[n].pubkey}
  {
    var n := |peers| - 1;
    assert peers == peers[..n] + [peers[n]];
    forall j | 0 <= j < n ensures peers[j].pubkey in PubkeysOf(peers[..n]) {
      assert peers[..n][j] in peers[..n];
    }
  }

  lemma {:induction false} AddAllConcat(s: State, a: seq<Peer>, b: seq<Peer>)
    ensures AddAll(s, a + b) == AddAll(AddAll(s, a), b)
  {
    if b == [] {
      assert a + b == a;
    } else {
      var n := |b| - 1;
      assert (a + b)[..|a + b| - 1] == a + b[..n];
      AddAllConcat(s, a, b[..n]);
    }
  }

  /** The collector handles the chunks of a list one request after the other. */
  function PostChunks(s: State, chunks: seq<seq<Peer>>): State {
    if chunks == [] then s else AddAll(PostChunks(s, chunks[..|chunks| - 1]), chunks[|chunks| - 1])
  }

  lemma {:induction false} ChunksDoNotMatter(s: State, chunks: seq<seq<Peer>>)
    ensures PostChunks(s, chunks) == AddAll(s, Flatten(chunks))
  {
    if chunks != [] {
      var n := |chunks| - 1;
      ChunksDoNotMatter(s, chunks[..n]);
      AddAllConcat(s, Flatten(chunks[..n]), chunks[n]);
    }
  }

  /** Sending the same list again changes nothing. */
  lemma {:induction false} ResendChangesNothing(s: State, peers: seq<Peer>)
    ensures AddAll(AddAll(s, peers), peers) == AddAll(s, peers)
  {
    AddAllAppendsNew(s, peers);
    var t := AddAll(s, peers);
    AddAllAppendsNew(t, peers);
    NoNewPeers(t.pubkeys, peers);
    assert t.pubkeys + PubkeysOf(peers) == t.pubkeys;
    assert t.eligible + [] == t.eligible;
  }

  lemma {:induction false} NoNewPeers(known: set<PublicKey>, peers: seq<Peer>)
    requires PubkeysOf(peers) <= known
    ensures NewPeers(known, peers) == []
  {
    if peers != [] {
      var n := |peers| - 1;
      assert peers[n].pubkey in PubkeysOf(peers);
      assert PubkeysOf(peers[..n]) <= PubkeysOf(peers);
      NoNewPeers(known, peers[..n]);
    }
  }

  const CHUNK := 256

  /** The controller's sending loop.  A chunk is sent after every index divisible by the
      chunk size, so the first holds one peer; what is left, possibly nothing, is sent
      at the end. */
  method SendEligiblePeers(peers: seq<Peer>) returns (chunks: seq<seq<Peer>>)
    ensures Flatten(chunks) == peers
    ensures chunks != [] && |chunks[|chunks| - 1]| < 256
    ensures forall i :: 0 <= i < |chunks| - 1 ==> |chunks[i]| == if i == 0 then 1 else 256
    ensures peers != [] ==> |chunks| >= 2
  {
    chunks := [];
    var current := [];
    for idx := 0 to |peers|
      invariant Flatten(chunks) + current == peers[..idx]
      invariant idx == 0 ==> chunks == [] && current == []
      invariant idx > 0 ==> chunks != [] && |current| == (idx - 1) % CHUNK
      invariant forall i :: 0 <= i < |chunks| ==> |chunks[i]| == if i == 0 then 1 else CHUNK
    {
      current := current + [peers[idx]];
      assert peers[..idx + 1] == peers[..idx] + [peers[idx]];
      if idx % CHUNK == 0 {
        FlattenSnoc(chunks, current);
        chunks := chunks + [current];
        current := [];
      }
    }
    assert peers[..|peers|] == peers;
    FlattenSnoc(chunks, current);
    chunks := chunks + [current];
  }

  /** Sender and receiver together: the chunks of a list leave the collector's queue
      extended by exactly the new peers of the list. */
  method DeliverPeers(s: State, peers: seq<Peer>) returns (t: State)
    ensures t == AddAll(s, peers)
    ensures t == s.(eligible := s.eligible + NewPeers(s.pubkeys, peers), pubkeys := s.pubkeys + PubkeysOf(peers))
  {
    var chunks := SendEligiblePeers(peers);
    t := s;
    for i := 0 to |chunks|
      invariant t == PostChunks(s, chunks[..i])
    {
      assert chunks[..i + 1][..i] == chunks[..i];
      t := AddAll(t, chunks[i]);
    }
    assert chunks[..|chunks|] == chunks;
    ChunksDoNotMatter(s, chunks);
    AddAllAppendsNew(s, peers);
  }
}
