/**
 The gossip records a collector uploads and the rules by which two of them are
 compared and merged (observer_common/src/types.rs).
 */
module GossipTypes {
  import opened Prelude

  type Scid = nat

  datatype NodeAnnouncementInfo =
    NodeAnnouncementInfo(lastUpdate: nat, alias: string, addresses: seq<string>)
  {
    predicate SameInfo(other: NodeAnnouncementInfo) {
      addresses == other.addresses && alias == other.alias
    }
  }

  datatype GossipNodeInfo =
    GossipNodeInfo(pubkey: PublicKey, info: Option<NodeAnnouncementInfo>)
  {
    predicate IsNewer(other: GossipNodeInfo) {
      match (info, other.info)
      case (Some(own), Some(theirs)) => own.lastUpdate > theirs.lastUpdate
      case (Some(_), None) => true
      case (None, Some(_)) => false
      case (None, None) => false
    }
  }

  datatype DirectionInfo =
    DirectionInfo(
      htlcMinMsat: nat,
      htlcMaxMsat: nat,
      feesBaseMsat: nat,
      feesProportionalMillionths: nat,
      cltvExpiryDelta: nat,
      lastUpdate: nat)
  {
    predicate IsNewer(other: DirectionInfo) {
      lastUpdate > other.lastUpdate
    }

    predicate SameInfo(other: DirectionInfo) {
      && htlcMinMsat == other.htlcMinMsat
      && htlcMaxMsat == other.htlcMaxMsat
      && feesBaseMsat == other.feesBaseMsat
      && feesProportionalMillionths == other.feesProportionalMillionths
      && cltvExpiryDelta == other.cltvExpiryDelta
    }

    function MergeToNewest(other: DirectionInfo): DirectionInfo {
      if IsNewer(other) then this else other
    }
  }

  function MergeDirections(init: Option<DirectionInfo>, other: Option<DirectionInfo>): Option<DirectionInfo> {
    match (init, other)
    case (Some(a), Some(b)) => Some(a.MergeToNewest(b))
    case (Some(a), None) => Some(a)
    case (None, Some(b)) => Some(b)
    case (None, None) => None
  }

  datatype ChannelInfo =
    ChannelInfo(
      scid: Scid,
      nodeOne: PublicKey,
      nodeTwo: PublicKey,
      lastUpdate: Option<nat>,
      capacitySats: Option<nat>,
      oneToTwo: Option<DirectionInfo>,
      twoToOne: Option<DirectionInfo>)
  {
    function MergeToNewest(other: ChannelInfo): ChannelInfo {
      var newerTs := match (lastUpdate, other.lastUpdate) {
        case (Some(a), Some(b)) => Some(if a >= b then a else b)
        case (Some(_), None) => lastUpdate
        case (None, Some(_)) => other.lastUpdate
        case (None, None) => None
      };
      var newerCapacity := match (capacitySats, other.capacitySats) {
        case (Some(own), Some(theirs)) => Some(if lastUpdate == newerTs then own else theirs)
        case (Some(_), None) => capacitySats
        case (None, Some(_)) => other.capacitySats
        case (None, None) => None
      };
      ChannelInfo(scid, nodeOne, nodeTwo, newerTs, newerCapacity,
                  MergeDirections(oneToTwo, other.oneToTwo),
                  MergeDirections(twoToOne, other.twoToOne))
    }
  }

  /** The record a collector builds from its own channel graph; `one` and `two` are
      the latest channel_updates it holds for the two directions. */
  function ChannelFromGraph(scid: Scid, nodeOne: PublicKey, nodeTwo: PublicKey, capacity: Option<nat>,
                            one: Option<DirectionInfo>, two: Option<DirectionInfo>): ChannelInfo {
    var lastUpdate := match (one, two) {
      case (Some(a), Some(b)) => Some(if a.lastUpdate >= b.lastUpdate then a.lastUpdate else b.lastUpdate)
      case (Some(a), None) => Some(a.lastUpdate)
      case (None, Some(b)) => Some(b.lastUpdate)
      case (None, None) => None
    };
    ChannelInfo(scid, nodeOne, nodeTwo, lastUpdate, capacity, one, two)
  }

  // ----- Timestamps as integers; an absent timestamp is older than every present one.

  function NodeStamp(n: GossipNodeInfo): int {
    if n.info.Some? then n.info.value.lastUpdate else -1
  }

  function DirStamp(d: Option<DirectionInfo>): int {
    if d.Some? then d.value.lastUpdate else -1
  }

  function ChannelStamp(c: ChannelInfo): int {
    if c.lastUpdate.Some? then c.lastUpdate.value else -1
  }

  datatype Side = OneToTwo | TwoToOne

  function Dir(c: ChannelInfo, side: Side): Option<DirectionInfo> {
    if side.OneToTwo? then c.oneToTwo else c.twoToOne
  }

  /** last_update is the largest timestamp among the present directions. */
  ghost predicate WellStamped(c: ChannelInfo) {
    && ChannelStamp(c) >= DirStamp(c.oneToTwo)
    && ChannelStamp(c) >= DirStamp(c.twoToOne)
    && (ChannelStamp(c) == DirStamp(c.oneToTwo) || ChannelStamp(c) == DirStamp(c.twoToOne))
  }

  // ----- Comparison

  /** Two announcements have the same info iff they differ at most in their timestamp. */
  lemma SameNodeInfoIff(a: NodeAnnouncementInfo, b: NodeAnnouncementInfo)
    ensures a.SameInfo(b) <==> a.(lastUpdate := b.lastUpdate) == b
  {
  }

  /** The same for two updates of a channel direction. */
  lemma SameDirectionInfoIff(a: DirectionInfo, b: DirectionInfo)
    ensures a.SameInfo(b) <==> a.(lastUpdate := b.lastUpdate) == b
  {
  }

  /** A node record is newer iff its timestamp is larger, an absent announcement being
      older than any. */
  lemma NewerIffLaterStamp(a: GossipNodeInfo, b: GossipNodeInfo)
    ensures a.IsNewer(b) <==> NodeStamp(a) > NodeStamp(b)
  {
  }

  // ----- Merge algebra

  /** Direction merge is an idempotent monoid with None as identity. */
  lemma DirectionMergeMonoid(a: Option<DirectionInfo>, b: Option<DirectionInfo>, c: Option<DirectionInfo>)
    ensures MergeDirections(MergeDirections(a, b), c) == MergeDirections(a, MergeDirections(b, c))
    ensures MergeDirections(a, a) == a
    ensures MergeDirections(None, a) == a == MergeDirections(a, None)
  {
  }

  /** It is not commutative: on equal timestamps the right operand wins. */
  lemma DirectionMergeCommutesIff(a: Option<DirectionInfo>, b: Option<DirectionInfo>)
    ensures MergeDirections(a, b) == MergeDirections(b, a) <==> (DirStamp(a) == DirStamp(b) ==> a == b)
  {
  }

  /** Uploaded channels satisfy the timestamp invariant and merging keeps it. */
  lemma WellStampedPreserved(a: ChannelInfo, b: ChannelInfo)
    requires WellStamped(a) && WellStamped(b)
    ensures WellStamped(a.MergeToNewest(b))
  {
  }

  lemma UploadedChannelWellStamped(scid: Scid, nodeOne: PublicKey, nodeTwo: PublicKey, capacity: Option<nat>,
                                   one: Option<DirectionInfo>, two: Option<DirectionInfo>)
    ensures WellStamped(ChannelFromGraph(scid, nodeOne, nodeTwo, capacity, one, two))
    ensures var c := ChannelFromGraph(scid, nodeOne, nodeTwo, capacity, one, two);
            && c.scid == scid && c.nodeOne == nodeOne && c.nodeTwo == nodeTwo && c.capacitySats == capacity
            && c.oneToTwo == one && c.twoToOne == two
            && (c.lastUpdate.None? <==> one.None? && two.None?)
  {
  }

  // ----- When the channel merge associates

  function MergeLeft(a: ChannelInfo, b: ChannelInfo, c: ChannelInfo): ChannelInfo {
    a.MergeToNewest(b).MergeToNewest(c)
  }

  function MergeRight(a: ChannelInfo, b: ChannelInfo, c: ChannelInfo): ChannelInfo {
    a.MergeToNewest(b.MergeToNewest(c))
  }

  /** Exactly one of the records has no capacity, the capacities of the other two differ,
      and the capacity-less one is new enough to decide between them in one grouping
      but not in the other. */
  ghost predicate GroupingMatters(a: ChannelInfo, b: ChannelInfo, c: ChannelInfo) {
    var x, y, z := ChannelStamp(a), ChannelStamp(b), ChannelStamp(c);
    match (a.capacitySats, b.capacitySats, c.capacitySats)
    case (Some(p), None, Some(q)) => p != q && x < y && z <= y
    case (None, Some(p), Some(q)) => p != q && y < z <= x
    case (Some(p), Some(q), None) => p != q && y <= x < z
    case _ => false
  }

  /** Channel merge associates on three records exactly when the capacity-less one, if
      there is just one, does not decide between the capacities of the others.  In
      particular it always associates when every capacity is present. */
  lemma ChannelMergeAssociatesIff(a: ChannelInfo, b: ChannelInfo, c: ChannelInfo)
    ensures MergeLeft(a, b, c) == MergeRight(a, b, c) <==> !GroupingMatters(a, b, c)
  {
    DirectionMergeMonoid(a.oneToTwo, b.oneToTwo, c.oneToTwo);
    DirectionMergeMonoid(a.twoToOne, b.twoToOne, c.twoToOne);
  }

  /** It does not always: a record without a capacity can raise the timestamp under
      which an older capacity is kept. */
  lemma CapacityMergeNotAssociative()
    ensures exists a: ChannelInfo, b: ChannelInfo, c: ChannelInfo :: MergeLeft(a, b, c) != MergeRight(a, b, c)
  {
    var a := ChannelInfo(1, "a", "b", Some(1), Some(100), None, None);
    var b := a.(lastUpdate := Some(3), capacitySats := None);
    var c := a.(lastUpdate := Some(2), capacitySats := Some(200));
    assert GroupingMatters(a, b, c);
    ChannelMergeAssociatesIff(a, b, c);
    assert MergeLeft(a, b, c) != MergeRight(a, b, c);
  }
}
