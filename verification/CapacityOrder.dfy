/**
 The capacity of a combined channel.  Its merge is the only part of the combined view
 that does not associate, so which capacity is left depends on the order of the uploads
 in a way of its own: this file says exactly which capacities can be left.
 */
module CapacityOrder {
  import opened Prelude
  import opened GossipTypes
  import opened KeyedFold
  import opened GraphMerge

  /** Per upload, its records of one channel, in the order it lists them. */
  type Records = map<string, seq<ChannelInfo>>

  const BELOW_ALL := -2

  /** The largest timestamp of some records; below every timestamp if there are none. */
  function Top(b: seq<ChannelInfo>): int {
    if b == [] then BELOW_ALL
    else
      var before, last := Top(b[..|b| - 1]), ChannelStamp(b[|b| - 1]);
      if before >= last then before else last
  }

  /** The capacity the records fold to. */
  function CapacityOf(b: seq<ChannelInfo>): Option<nat> {
    if b == [] then None else Fold(MergeChannels, b).capacitySats
  }

  /** The last record with a capacity that is newer than every record before it. */
  function Decisive(b: seq<ChannelInfo>): Option<ChannelInfo> {
    if b == [] then None
    else
      var before, last := b[..|b| - 1], b[|b| - 1];
      if last.capacitySats.Some? && ChannelStamp(last) > Top(before) then Some(last) else Decisive(before)
  }

  function DecisiveStamp(b: seq<ChannelInfo>): int {
    if Decisive(b).Some? then ChannelStamp(Decisive(b).value) else BELOW_ALL
  }

  function FirstCapacity(b: seq<ChannelInfo>): Option<nat> {
    if b == [] then None
    else if FirstCapacity(b[..|b| - 1]).Some? then FirstCapacity(b[..|b| - 1])
    else b[|b| - 1].capacitySats
  }

  // ----- What one upload does to the capacity

  lemma {:induction false} TopOf(b: seq<ChannelInfo>)
    requires b != []
    ensures Top(b) == ChannelStamp(Fold(MergeChannels, b)) > BELOW_ALL
  {
    if |b| > 1 {
      TopOf(b[..|b| - 1]);
    } else {
      assert b[..0] == [];
    }
  }

  lemma {:induction false} TopConcat(a: seq<ChannelInfo>, b: seq<ChannelInfo>)
    ensures Top(a + b) == if Top(a) >= Top(b) then Top(a) else Top(b)
    ensures Top(b) >= BELOW_ALL
  {
    if b == [] {
      assert a + b == a;
      if a != [] {
        TopOf(a);
      }
    } else {
      var n := |b| - 1;
      assert (a + b)[..|a + b| - 1] == a + b[..n];
      TopConcat(a, b[..n]);
    }
  }

  lemma {:induction false} DecisiveFacts(b: seq<ChannelInfo>)
    ensures BELOW_ALL <= DecisiveStamp(b) <= Top(b)
    ensures Decisive(b).Some? ==> Decisive(b).value.capacitySats.Some? && DecisiveStamp(b) > BELOW_ALL
    ensures DecisiveStamp(b) > BELOW_ALL ==> Decisive(b).Some?
    ensures Decisive(b).Some? ==> FirstCapacity(b).Some?
  {
    if b != [] {
      DecisiveFacts(b[..|b| - 1]);
    }
  }

  /** The capacity after one more upload: its decisive one if that is newer than all
      before; otherwise the one there was, or the upload's first if there was none. */
  function Decide(top: int, capacity: Option<nat>, b: seq<ChannelInfo>): Option<nat> {
    if DecisiveStamp(b) > top then (if Decisive(b).Some? then Decisive(b).value.capacitySats else None)
    else if capacity.Some? then capacity
    else FirstCapacity(b)
  }

  lemma CapacitySnoc(b: seq<ChannelInfo>, x: ChannelInfo)
    ensures CapacityOf(b + [x]) ==
            if CapacityOf(b).None? || (x.capacitySats.Some? && ChannelStamp(x) > Top(b)) then x.capacitySats
            else CapacityOf(b)
  {
    if b == [] {
      assert b + [x] == [x];
    } else {
      FoldSnoc(MergeChannels, b, x);
      TopOf(b);
    }
  }

  lemma {:induction false} UploadDecides(pre: seq<ChannelInfo>, b: seq<ChannelInfo>)
    ensures CapacityOf(pre + b) == Decide(Top(pre), CapacityOf(pre), b)
  {
    if b == [] {
      assert pre + b == pre;
      TopConcat([], pre);
      assert [] + pre == pre;
    } else {
      var n := |b| - 1;
      assert pre + b == (pre + b[..n]) + [b[n]];
      UploadDecides(pre, b[..n]);
      CapacitySnoc(pre + b[..n], b[n]);
      TopConcat(pre, b[..n]);
      DecisiveFacts(b[..n]);
      hide CapacityOf;
    }
  }

  lemma OwnCapacity(b: seq<ChannelInfo>)
    ensures CapacityOf(b) == if Decisive(b).Some? then Decisive(b).value.capacitySats else FirstCapacity(b)
  {
    assert [] + b == b;
    UploadDecides([], b);
    DecisiveFacts(b);
  }

  // ----- Which capacities can be left

  /** At timestamp `t` the capacity can be kept from then on, or the timestamp raised
      further while keeping it: no upload decides above `t`, or some upload reaches
      beyond `t` without deciding above it. */
  ghost predicate CanPass(own: Records, t: int) {
    || (forall u :: u in own ==> DecisiveStamp(own[u]) <= t)
    || (exists u :: u in own && DecisiveStamp(own[u]) <= t < Top(own[u]))
  }

  /** From `start` on a capacity can be kept to the end: it can be at every timestamp the
      uploads visited later may raise it to. */
  ghost predicate CanKeepFrom(own: Records, start: int) {
    && CanPass(own, start)
    && forall v :: v in own && Top(own[v]) >= start ==> CanPass(own, Top(own[v]))
  }

  /** The capacity `u` folds its own records to can be kept. */
  ghost predicate OwnKept(own: Records, u: string) {
    u in own && CanKeepFrom(own, Top(own[u]))
  }

  /** The capacity `u` lists first can be taken over behind `n`, which has none, and
      kept. */
  ghost predicate FirstKept(own: Records, u: string, n: string) {
    && u in own && n in own && own[n] != [] && CapacityOf(own[n]).None?
    && DecisiveStamp(own[u]) <= Top(own[n])
    && CanKeepFrom(own, if Top(own[n]) >= Top(own[u]) then Top(own[n]) else Top(own[u]))
  }

  ghost predicate Possible(own: Records, c: nat) {
    || (exists u :: OwnKept(own, u) && CapacityOf(own[u]) == Some(c))
    || (exists u, n :: FirstKept(own, u, n) && FirstCapacity(own[u]) == Some(c))
  }

  // ----- Every order leaves a possible capacity

  /** The records seen when the uploads are visited in order, up to position `i`. */
  ghost function Seen(own: Records, order: seq<string>, i: nat): seq<ChannelInfo>
    requires i <= |order| && forall u :: u in order ==> u in own
  {
    Listing(own, order[..i])
  }

  lemma SeenNext(own: Records, order: seq<string>, i: nat)
    requires i < |order| && forall u :: u in order ==> u in own
    ensures Seen(own, order, i + 1) == Seen(own, order, i) + own[order[i]]
    ensures Seen(own, order, 0) == [] && Seen(own, order, |order|) == Listing(own, order)
  {
    assert order[..i + 1][..i] == order[..i];
    assert order[..|order|] == order;
  }

  /** The upload at position `i` replaces the capacity, being newer than all before. */
  ghost predicate Decides(own: Records, order: seq<string>, i: nat)
    requires i < |order| && forall u :: u in order ==> u in own
  {
    DecisiveStamp(own[order[i]]) > Top(Seen(own, order, i))
  }

  lemma {:induction false} SeenGrows(own: Records, order: seq<string>, i: nat, j: nat)
    requires i <= j <= |order| && forall u :: u in order ==> u in own
    ensures Top(Seen(own, order, i)) <= Top(Seen(own, order, j))
    ensures forall k :: i <= k < j ==> Top(own[order[k]]) <= Top(Seen(own, order, j))
    decreases j - i
  {
    if i < j {
      SeenGrows(own, order, i + 1, j);
      SeenNext(own, order, i);
      TopConcat(Seen(own, order, i), own[order[i]]);
      hide Seen, Top;
    }
  }

  /** The first upload that raises the timestamp above `t`. */
  lemma {:induction false} FirstAbove(own: Records, order: seq<string>, i: nat, t: int) returns (j: nat)
    requires i <= |order| && forall u :: u in order ==> u in own
    requires Top(Seen(own, order, i)) <= t < Top(Listing(own, order))
    ensures i <= j < |order| && Top(Seen(own, order, j)) <= t < Top(own[order[j]])
    decreases |order| - i
  {
    assert i < |order| by {
      assert order[..|order|] == order;
    }
    SeenNext(own, order, i);
    TopConcat(Seen(own, order, i), own[order[i]]);
    hide Seen, Top;
    if Top(own[order[i]]) > t {
      j := i;
    } else {
      j := FirstAbove(own, order, i + 1, t);
    }
  }

  /** If nothing decides from position `i` on, the capacity there can be kept. */
  lemma NothingDecidesLater(own: Records, order: seq<string>, i: nat)
    requires Enumerates(order, own.Keys) && i <= |order|
    requires forall j :: i <= j < |order| ==> !Decides(own, order, j)
    ensures CanKeepFrom(own, Top(Seen(own, order, i)))
  {
    hide Seen;
    forall t | t >= Top(Seen(own, order, i)) ensures CanPass(own, t) {
      if u :| u in own && DecisiveStamp(own[u]) > t {
        var k :| 0 <= k < |order| && order[k] == u;
        DecisiveFacts(own[u]);
        SeenGrows(own, order, 0, |order|);
        SeenNext(own, order, k);
        var j := FirstAbove(own, order, i, t);
        assert order[j] in own && !Decides(own, order, j);
      }
    }
  }

  /** The last upload that decides fixes the capacity. */
  lemma {:induction false} LastDecision(own: Records, order: seq<string>, m: nat) returns (i: int)
    requires m <= |order| && forall u :: u in order ==> u in own
    ensures -1 <= i < m && forall j :: i < j < m ==> !Decides(own, order, j)
    ensures i >= 0 ==> Decides(own, order, i) && CapacityOf(Seen(own, order, m)) == CapacityOf(own[order[i]])
  {
    i := -1;
    if m > 0 {
      SeenNext(own, order, m - 1);
      UploadDecides(Seen(own, order, m - 1), own[order[m - 1]]);
      TopConcat([], Seen(own, order, m - 1));
      OwnCapacity(own[order[m - 1]]);
      hide Seen, CapacityOf, FirstCapacity, Top;
      if Decides(own, order, m - 1) {
        i := m - 1;
      } else {
        i := LastDecision(own, order, m - 1);
        if i >= 0 {
          OwnCapacity(own[order[i]]);
          TopConcat([], Seen(own, order, i));
          DecisiveFacts(own[order[i]]);
        }
      }
    }
  }

  /** If none does, the capacity is the first one listed by the first upload with any. */
  lemma {:induction false} FirstGiver(own: Records, order: seq<string>, m: nat) returns (f: nat)
    requires m <= |order| && forall u :: u in order ==> u in own
    requires forall j :: 0 <= j < m ==> !Decides(own, order, j)
    requires CapacityOf(Seen(own, order, m)).Some?
    ensures f < m && CapacityOf(Seen(own, order, f)).None?
    ensures FirstCapacity(own[order[f]]) == CapacityOf(Seen(own, order, m))
  {
    assert m > 0 by {
      assert Seen(own, order, 0) == [];
    }
    SeenNext(own, order, m - 1);
    UploadDecides(Seen(own, order, m - 1), own[order[m - 1]]);
    assert !Decides(own, order, m - 1);
    hide Seen, CapacityOf, FirstCapacity, Top, DecisiveStamp;
    if CapacityOf(Seen(own, order, m - 1)).Some? {
      f := FirstGiver(own, order, m - 1);
    } else {
      f := m - 1;
    }
  }

  /** Among uploads seen without finding a capacity, one has the largest timestamp. */
  lemma {:induction false} TopUpload(own: Records, order: seq<string>, m: nat) returns (n: string)
    requires m <= |order| && forall u :: u in order ==> u in own
    requires Seen(own, order, m) != [] && CapacityOf(Seen(own, order, m)).None?
    ensures n in own && own[n] != [] && CapacityOf(own[n]).None? && Top(own[n]) == Top(Seen(own, order, m))
  {
    if m == 0 {
      assert false;
    } else {
      var before, b := Seen(own, order, m - 1), own[order[m - 1]];
      SeenNext(own, order, m - 1);
      UploadDecides(before, b);
      TopConcat(before, b);
      OwnCapacity(b);
      DecisiveFacts(b);
      if b != [] && Top(b) >= Top(before) {
        n := order[m - 1];
      } else {
        if b == [] {
          assert before + b == before;
        } else {
          TopOf(b);
        }
        n := TopUpload(own, order, m - 1);
      }
    }
  }

  lemma OutcomeIsPossible(own: Records, order: seq<string>, c: nat)
    requires Enumerates(order, own.Keys) && CapacityOf(Listing(own, order)) == Some(c)
    ensures Possible(own, c)
  {
    var m := |order|;
    assert order[..m] == order;
    var i := LastDecision(own, order, m);
    if i >= 0 {
      var u := order[i];
      NothingDecidesLater(own, order, i + 1);
      SeenNext(own, order, i);
      TopConcat(Seen(own, order, i), own[u]);
      DecisiveFacts(own[u]);
      assert OwnKept(own, u);
    } else {
      var f := FirstGiver(own, order, m);
      var u := order[f];
      NothingDecidesLater(own, order, f + 1);
      SeenNext(own, order, f);
      TopConcat(Seen(own, order, f), own[u]);
      if Seen(own, order, f) == [] {
        assert Seen(own, order, f) + own[u] == own[u];
        OwnCapacity(own[u]);
        DecisiveFacts(own[u]);
        assert !Decides(own, order, f);
        assert OwnKept(own, u);
      } else {
        var n := TopUpload(own, order, f);
        assert !Decides(own, order, f);
        assert FirstKept(own, u, n);
      }
    }
  }

  // ----- Every possible capacity is left by some order

  /** Every upload but the rest is among the records seen. */
  ghost predicate Rest(own: Records, seen: seq<ChannelInfo>, rest: set<string>) {
    rest <= own.Keys && forall u :: u in own && u !in rest ==> Top(own[u]) <= Top(seen)
  }

  /** The remaining uploads can be visited so that none of them decides: take one that
      does not decide yet, preferring one that raises the timestamp. */
  lemma {:induction false} KeepingOrder(own: Records, seen: seq<ChannelInfo>, rest: set<string>)
    returns (tail: seq<string>)
    requires Rest(own, seen, rest)
    requires CapacityOf(seen).Some? && CanKeepFrom(own, Top(seen))
    ensures Enumerates(tail, rest)
    ensures CapacityOf(seen + Listing(own, tail)) == CapacityOf(seen)
    decreases |rest|
  {
    if rest == {} {
      tail := [];
      assert seen + [] == seen;
    } else {
      var v := NextKept(own, seen, rest);
      VisitKept(own, seen, rest, v);
      hide *;
      var more := KeepingOrder(own, seen + own[v], rest - {v});
      EnumeratesCons(rest, v, more);
      ListingBehind(own, seen, v, more);
      tail := [v] + more;
    }
  }

  lemma NextKept(own: Records, seen: seq<ChannelInfo>, rest: set<string>) returns (v: string)
    requires Rest(own, seen, rest) && rest != {} && CanKeepFrom(own, Top(seen))
    ensures v in rest && v in own && DecisiveStamp(own[v]) <= Top(seen)
  {
    if forall u :: u in own ==> DecisiveStamp(own[u]) <= Top(seen) {
      v :| v in rest;
    } else {
      v :| v in own && DecisiveStamp(own[v]) <= Top(seen) < Top(own[v]);
    }
  }

  lemma VisitKept(own: Records, seen: seq<ChannelInfo>, rest: set<string>, v: string)
    requires Rest(own, seen, rest) && v in rest && v in own
    requires CapacityOf(seen).Some? && CanKeepFrom(own, Top(seen)) && DecisiveStamp(own[v]) <= Top(seen)
    ensures CapacityOf(seen + own[v]) == CapacityOf(seen)
    ensures CanKeepFrom(own, Top(seen + own[v])) && Rest(own, seen + own[v], rest - {v})
  {
    UploadDecides(seen, own[v]);
    TopConcat(seen, own[v]);
    hide CapacityOf, Top, DecisiveStamp, CanPass;
  }

  lemma EnumeratesCons(keys: set<string>, u: string, rest: seq<string>)
    requires u in keys && Enumerates(rest, keys - {u})
    ensures Enumerates([u] + rest, keys)
  {
    forall z | z in keys ensures z in [u] + rest {
      if z != u { assert z in rest; }
    }
  }

  lemma ListingBehind(own: Records, seen: seq<ChannelInfo>, v: string, rest: seq<string>)
    requires v in own && forall u :: u in rest ==> u in own
    ensures seen + Listing(own, [v] + rest) == (seen + own[v]) + Listing(own, rest)
  {
    ListingConcat(own, [v], rest);
    ListingOne(own, v);
  }

  lemma ListingTwoBehind(own: Records, n: string, u: string, rest: seq<string>)
    requires n in own && u in own && forall v :: v in rest ==> v in own
    ensures Listing(own, [n] + ([u] + rest)) == (own[n] + own[u]) + Listing(own, rest)
  {
    ListingConcat(own, [n], [u] + rest);
    ListingOne(own, n);
    ListingBehind(own, own[n], u, rest);
  }

  lemma OwnCapacityWins(own: Records, u: string) returns (order: seq<string>)
    requires OwnKept(own, u) && CapacityOf(own[u]).Some?
    ensures Enumerates(order, own.Keys) && CapacityOf(Listing(own, order)) == CapacityOf(own[u])
  {
    hide CapacityOf, Top, CanKeepFrom;
    var tail := KeepingOrder(own, own[u], own.Keys - {u});
    order := [u] + tail;
    EnumeratesCons(own.Keys, u, tail);
    ListingBehind(own, [], u, tail);
    assert [] + Listing(own, order) == Listing(own, order) && [] + own[u] == own[u];
  }

  lemma FirstCapacityWins(own: Records, u: string, n: string) returns (order: seq<string>)
    requires FirstKept(own, u, n) && FirstCapacity(own[u]).Some?
    ensures Enumerates(order, own.Keys) && CapacityOf(Listing(own, order)) == FirstCapacity(own[u])
  {
    OwnCapacity(own[u]);
    DecisiveFacts(own[u]);
    UploadDecides(own[n], own[u]);
    TopConcat(own[n], own[u]);
    hide CapacityOf, Top, DecisiveStamp, FirstCapacity, CanKeepFrom;
    var tail := KeepingOrder(own, own[n] + own[u], own.Keys - {n} - {u});
    EnumeratesCons(own.Keys - {n}, u, tail);
    EnumeratesCons(own.Keys, n, [u] + tail);
    order := [n] + ([u] + tail);
    ListingTwoBehind(own, n, u, tail);
  }

  /** The capacities some order leaves are exactly the possible ones. */
  lemma LeftIffPossible(own: Records, c: nat)
    ensures Possible(own, c) <==>
            exists order :: Enumerates(order, own.Keys) && CapacityOf(Listing(own, order)) == Some(c)
  {
    if u :| OwnKept(own, u) && CapacityOf(own[u]) == Some(c) {
      var order := OwnCapacityWins(own, u);
    } else if u, n :| FirstKept(own, u, n) && FirstCapacity(own[u]) == Some(c) {
      var order := FirstCapacityWins(own, u, n);
    }
    if order :| Enumerates(order, own.Keys) && CapacityOf(Listing(own, order)) == Some(c) {
      OutcomeIsPossible(own, order, c);
    }
  }
}
