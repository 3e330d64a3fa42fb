/**
 The collector's exporter: messages from the node are filtered against the peers with
 pending connections, queued, and published in batches
 (gossip_collector/src/exporter.rs).  The filter reaches the exporter through a watch
 channel written by the peer-connection manager.
 */
module Exporter {
  import opened Prelude
  import opened Text
  import opened WireFormat
  import PC = PeerConn

  /** A message as received from the node, with the collector key appended, and the
      manager's pending peers at that moment. */
  datatype Receipt = Receipt(msg: string, pending: set<string>)

  datatype State =
    State(
      batchSize: nat,
      collector: string,
      conn: PC.State,
      exported: seq<string>,      // history: everything the node exported
      rx: seq<string>,            // unbounded channel from the node
      seen: nat,                  // version of the filter last read
      rules: set<string>,         // the exporter's copy of the filter
      received: seq<Receipt>,     // history: everything taken from rx
      held: Option<string>,       // message waiting for room in the queue
      queue: seq<string>,         // bounded channel to the publisher
      batch: seq<string>,
      published: seq<seq<string>>)

  datatype Step =
    | Manage(request: PC.Msg, now: int)  // the manager handles a message
    | NodeExports(msg: string)       // the node exports a message
    | UpdateRules                    // the exporter reads a changed filter
    | Receive                        // the exporter takes a message
    | Enqueue                        // the held message is admitted to the queue
    | Publish                        // the publisher takes a message and may publish

  /** Both tasks start after the collector key is known; the filter is read once. */
  function Init(batchSize: nat, collector: string, conn: PC.State, waiting: seq<string>): State {
    State(batchSize, collector, conn, waiting, waiting, conn.version, conn.filter, [], None, [], [], [])
  }

  function WithKey(s: State, msg: string): string { msg + ([INTRA] + s.collector) }

  /** The field the filter looks at. */
  function PeerField(msg: string): Option<string> {
    var parts := Split(msg, INTRA);
    if |parts| > 1 then Some(parts[1]) else None
  }

  /** The biased select prefers a changed filter to a message. */
  predicate Enabled(s: State, a: Step) {
    match a
    case Manage(_, _) => true
    case NodeExports(_) => true
    case UpdateRules => s.held.None? && s.seen != s.conn.version
    case Receive => s.held.None? && s.seen == s.conn.version && s.rx != [] && PeerField(WithKey(s, s.rx[0])).Some?
    case Enqueue => s.held.Some? && |s.queue| < s.batchSize
    case Publish => s.queue != []
  }

  function Apply(s: State, a: Step): State
    requires Enabled(s, a)
  {
    match a
    case Manage(msg, now) => s.(conn := PC.Handle(s.conn, msg, now))
    case NodeExports(msg) => s.(exported := s.exported + [msg], rx := s.rx + [msg])
    case UpdateRules => s.(rules := s.conn.filter, seen := s.conn.version)
    case Receive =>
      var msg := WithKey(s, s.rx[0]);
      s.(rx := s.rx[1..],
         received := s.received + [Receipt(msg, PC.BuildFilter(s.conn.pending))],
         held := if PeerField(msg).value in s.rules then None else Some(msg))
    case Enqueue => s.(queue := s.queue + [s.held.value], held := None)
    case Publish =>
      var batch := s.batch + [s.queue[0]];
      if |batch| >= s.batchSize
      then s.(queue := s.queue[1..], batch := [], published := s.published + [batch])
      else s.(queue := s.queue[1..], batch := batch)
  }

  /** The branch for a malformed message is dead: with the key appended, every message
      has a second field. */
  lemma SecondFieldAlwaysPresent(s: State, msg: string)
    ensures PeerField(WithKey(s, msg)).Some?
  {
    SplitCount(WithKey(s, msg), INTRA);
    CountZero(WithKey(s, msg), INTRA);
    assert WithKey(s, msg)[|msg|] == INTRA;
  }

  ghost predicate IsRun(run: seq<State>, steps: seq<Step>) {
    && |run| == |steps| + 1
    && PC.Inv(run[0].conn) && run[0].batchSize >= 1
    && run[0] == Init(run[0].batchSize, run[0].collector, run[0].conn, run[0].rx)
    && forall i :: 0 <= i < |steps| ==> IsStep(run[i], steps[i], run[i + 1])
  }

  ghost predicate IsStep(s: State, a: Step, t: State) {
    Enabled(s, a) && t == Apply(s, a)
  }

  // ----- What every run keeps

  /** The message's peer was not among the pending ones recorded with it. */
  predicate Forwards(r: Receipt) {
    PeerField(r.msg).Some? && PeerField(r.msg).value !in r.pending
  }

  /** The messages whose peer was not pending, by the manager's own list, when they were
      received. */
  function Unfiltered(received: seq<Receipt>): seq<string> {
    if received == [] then []
    else
      var last := received[|received| - 1];
      Unfiltered(received[..|received| - 1])
      + (if Forwards(last) then [last.msg] else [])
  }

  function HeldMsg(s: State): seq<string> {
    if s.held.Some? then [s.held.value] else []
  }

  /** Published, batched, queued and held messages are exactly the unfiltered received
      ones, in order; nothing received is lost, reordered or duplicated. */
  ghost predicate Conserved(s: State) {
    && Flatten(s.published) + s.batch + s.queue + HeldMsg(s) == Unfiltered(s.received)
    && |s.received| + |s.rx| == |s.exported|
    && (forall i :: 0 <= i < |s.received| ==> s.received[i].msg == WithKey(s, s.exported[i]))
    && s.rx == s.exported[|s.received|..]
  }

  ghost predicate Inv(s: State) {
    && s.batchSize >= 1
    && PC.Inv(s.conn)
    && (s.seen == s.conn.version ==> s.rules == s.conn.filter)
    && s.seen <= s.conn.version
    && |s.batch| < s.batchSize && |s.queue| <= s.batchSize
    && (forall b :: b in s.published ==> |b| == s.batchSize)
  }

  lemma ManagerVersions(s: PC.State, m: PC.Msg, now: int)
    ensures PC.Handle(s, m, now).version >= s.version
    ensures PC.Handle(s, m, now).version == s.version ==> PC.Handle(s, m, now).filter == s.filter
  {
  }

  lemma StepKeepsInv(s: State, a: Step)
    requires Inv(s) && Enabled(s, a)
    ensures Inv(Apply(s, a)) && Apply(s, a).collector == s.collector
  {
    hide PC.Inv, PC.Handle;
    match a
    case Manage(msg, now) =>
      PC.HandleKeepsInv(s.conn, msg, now);
      ManagerVersions(s.conn, msg, now);
    case _ =>
  }

  lemma StepConserves(s: State, a: Step)
    requires Inv(s) && Conserved(s) && Enabled(s, a)
    ensures Conserved(Apply(s, a))
  {
    hide Inv, Conserved, PC.Handle, PeerField, Split, Apply, Enabled;
    match a
    case Receive => ReceiveConserves(s);
    case Publish => PublishConserves(s);
    case _ => OtherStepsConserve(s, a);
  }

  lemma OtherStepsConserve(s: State, a: Step)
    requires Conserved(s) && Enabled(s, a) && !a.Receive? && !a.Publish?
    ensures Conserved(Apply(s, a))
  {
    hide PC.Handle, PeerField, Split, Unfiltered, Flatten;
    match a
    case Enqueue =>
      var front := Flatten(s.published) + s.batch;
      assert front + s.queue + HeldMsg(s) == front + (s.queue + HeldMsg(s)) + [];
    case _ =>
  }

  lemma ReceiveConserves(s: State)
    requires Inv(s) && Conserved(s) && Enabled(s, Receive)
    ensures Conserved(Apply(s, Receive))
  {
    var t, n := Apply(s, Receive), |s.received|;
    assert t.received[..n] == s.received;
    assert s.rules == PC.BuildFilter(s.conn.pending);
    assert s.rx[0] == s.exported[n];
    hide PeerField, PC.BuildFilter, PC.Inv;
    assert t.rx == t.exported[n + 1..];
    assert HeldMsg(s) == [];
    assert Flatten(s.published) + s.batch + s.queue + HeldMsg(s) == Flatten(s.published) + s.batch + s.queue;
  }

  lemma PublishConserves(s: State)
    requires Conserved(s) && Enabled(s, Publish)
    ensures Conserved(Apply(s, Publish))
  {
    var t, batch := Apply(s, Publish), s.batch + [s.queue[0]];
    assert t.received == s.received && t.rx == s.rx && t.exported == s.exported && HeldMsg(t) == HeldMsg(s);
    assert t.collector == s.collector && t.queue == s.queue[1..];
    assert (t.published == s.published + [batch] && t.batch == []) || (t.published == s.published && t.batch == batch);
    hide Apply, Enabled, Flatten, Unfiltered, PeerField, HeldMsg, WithKey;
    PublishMoves(s.published, s.batch, s.queue, HeldMsg(s), t.published, t.batch);
  }

  lemma PublishMoves<T>(sent: seq<seq<T>>, batch: seq<T>, queue: seq<T>, held: seq<T>,
                        sent': seq<seq<T>>, batch': seq<T>)
    requires queue != []
    requires (sent' == sent + [batch + [queue[0]]] && batch' == []) || (sent' == sent && batch' == batch + [queue[0]])
    ensures Flatten(sent') + batch' + queue[1..] + held == Flatten(sent) + batch + queue + held
  {
    FlattenSnoc(sent, batch + [queue[0]]);
    Regroup(Flatten(sent), batch, queue, held);
    hide Flatten;
  }

  lemma Regroup<T>(sent: seq<T>, batch: seq<T>, queue: seq<T>, held: seq<T>)
    requires queue != []
    ensures sent + batch + queue + held == sent + (batch + [queue[0]]) + queue[1..] + held
    ensures sent + batch + queue + held == (sent + (batch + [queue[0]])) + [] + queue[1..] + held
  {
    assert batch + queue == (batch + [queue[0]]) + queue[1..];
  }

  /** In every state of every run: published batches have exactly the batch size, and
      published, batched, queued and held messages are the received ones whose peer the
      manager did not have pending at the moment of receipt, in order. */
  lemma {:induction false} RunsKeepInv(run: seq<State>, steps: seq<Step>, i: nat)
    requires IsRun(run, steps) && i < |run|
    ensures Inv(run[i]) && Conserved(run[i])
  {
    if i == 0 {
    } else {
      RunsKeepInv(run, steps, i - 1);
      assert IsStep(run[i - 1], steps[i - 1], run[i]);
      hide Inv, Conserved, Apply, Enabled;
      StepKeepsInv(run[i - 1], steps[i - 1]);
      StepConserves(run[i - 1], steps[i - 1]);
    }
  }

  /** Safety: no message in any published batch came from a peer that was pending when
      the message was received. */
  lemma NothingPendingIsPublished(run: seq<State>, steps: seq<Step>, i: nat, b: nat, k: nat) returns (j: nat)
    requires IsRun(run, steps) && i < |run|
    requires b < |run[i].published| && k < |run[i].published[b]|
    ensures j < |run[i].received| && run[i].received[j].msg == run[i].published[b][k]
    ensures PeerField(run[i].received[j].msg).Some?
            && PeerField(run[i].received[j].msg).value !in run[i].received[j].pending
  {
    var s := run[i];
    RunsKeepInv(run, steps, i);
    FlattenMember(s.published, b, k);
    assert s.published[b][k] in Unfiltered(s.received);
    j := UnfilteredWitness(s.received, s.published[b][k]);
  }

  lemma {:induction false} FlattenMember<T>(batches: seq<seq<T>>, b: nat, k: nat)
    requires b < |batches| && k < |batches[b]|
    ensures batches[b][k] in Flatten(batches)
  {
    var n := |batches| - 1;
    if b < n {
      FlattenMember(batches[..n], b, k);
    }
  }

  lemma {:induction false} UnfilteredWitness(received: seq<Receipt>, msg: string) returns (j: nat)
    requires msg in Unfiltered(received)
    ensures j < |received| && received[j].msg == msg
    ensures PeerField(msg).Some? && PeerField(msg).value !in received[j].pending
  {
    var n := |received| - 1;
    if msg in Unfiltered(received[..n]) {
      j := UnfilteredWitness(received[..n], msg);
    } else {
      j := n;
    }
  }

  // ----- Which messages are forwarded, and what the filter was

  lemma {:induction false} ForwardedPositions(received: seq<Receipt>) returns (positions: seq<nat>)
    ensures |positions| == |Unfiltered(received)| && Increasing(positions, |received|)
    ensures forall i :: 0 <= i < |positions| ==> Unfiltered(received)[i] == received[positions[i]].msg
    ensures forall j :: 0 <= j < |received| ==> (j in positions <==> Forwards(received[j]))
  {
    hide Forwards;
    positions := [];
    if received != [] {
      var n := |received| - 1;
      positions := ForwardedPositions(received[..n]);
      IncreasingSnoc(positions, n);
      assert forall j :: 0 <= j < n ==> received[..n][j] == received[j];
      if Forwards(received[n]) {
        positions := positions + [n];
      }
    }
  }

  /** The messages forwarded are those at exactly the positions whose second field was not
      the key of a peer pending then, in the order of receipt. */
  lemma ForwardedIff(s: State) returns (positions: seq<nat>)
    requires Conserved(s)
    ensures var forwarded := Flatten(s.published) + s.batch + s.queue + HeldMsg(s);
            && |positions| == |forwarded| && Increasing(positions, |s.received|)
            && forall i :: 0 <= i < |positions| ==> forwarded[i] == s.received[positions[i]].msg
    ensures forall j :: 0 <= j < |s.received| ==>
              var p := Split(s.received[j].msg, ',');
              j in positions <==> |p| > 1 && p[1] !in s.received[j].pending
  {
    hide Split, Unfiltered, Flatten;
    positions := ForwardedPositions(s.received);
  }

  ghost predicate Pends(s: PC.State, k: string) {
    exists i :: 0 <= i < |s.pending| && s.pending[i].peer.pubkey == k
  }

  lemma FilterIff(s: PC.State, k: string)
    ensures k in PC.BuildFilter(s.pending) <==> Pends(s, k)
  {
    if Pends(s, k) {
      var i :| 0 <= i < |s.pending| && s.pending[i].peer.pubkey == k;
      assert s.pending[i] in s.pending;
    }
  }

  /** A step receives nothing, or takes the next export and records it with the filter of
      the pending list. */
  lemma StepReceives(s: State, a: Step)
    requires Enabled(s, a)
    ensures a != Receive ==> Apply(s, a).received == s.received
    ensures a == Receive ==>
              Apply(s, a).received == s.received + [Receipt(WithKey(s, s.rx[0]), PC.BuildFilter(s.conn.pending))]
  {
    hide PeerField, PC.Handle, PC.BuildFilter, WithKey;
  }

  /** Everything received was recorded with exactly the peers the manager had pending at
      that step. */
  lemma {:induction false} ReceivedAt(run: seq<State>, steps: seq<Step>, i: nat, j: nat) returns (t: nat)
    requires IsRun(run, steps) && i < |run| && j < |run[i].received|
    ensures t < i && steps[t] == Receive && |run[t].received| == j
    ensures forall k :: k in run[i].received[j].pending <==> Pends(run[t].conn, k)
  {
    assert i > 0 && IsStep(run[i - 1], steps[i - 1], run[i]);
    StepReceives(run[i - 1], steps[i - 1]);
    hide Apply, Enabled, WithKey, PC.BuildFilter, Pends;
    if j < |run[i - 1].received| {
      t := ReceivedAt(run, steps, i - 1, j);
    } else {
      t := i - 1;
      forall k ensures k in run[i].received[j].pending <==> Pends(run[t].conn, k) {
        FilterIff(run[t].conn, k);
      }
    }
  }

  /** Safety in terms of the run alone: every published message is one the node exported,
      with the key appended, and its second field is not the key of any connection that
      was pending at the step that received it. */
  lemma PublishedWasNotPending(run: seq<State>, steps: seq<Step>, i: nat, b: nat, n: nat) returns (j: nat, t: nat)
    requires IsRun(run, steps) && i < |run|
    requires b < |run[i].published| && n < |run[i].published[b]|
    ensures t < i && steps[t] == Receive && |run[t].received| == j < |run[i].exported|
    ensures run[i].published[b][n] == run[i].exported[j] + [','] + run[i].collector
    ensures |Split(run[i].published[b][n], ',')| > 1 && !Pends(run[t].conn, Split(run[i].published[b][n], ',')[1])
  {
    j := NothingPendingIsPublished(run, steps, i, b, n);
    t := ReceivedAt(run, steps, i, j);
    RunsKeepInv(run, steps, i);
    assert run[i].received[j].msg == WithKey(run[i], run[i].exported[j]);
  }

  /** Nothing waits forever for want of a step: with a message to take the exporter can read
      the filter or take it, and a held message can be queued unless the publisher can
      take one from the full queue. */
  lemma ExporterCanMove(s: State)
    requires Inv(s)
    ensures s.held.None? && s.rx != [] ==> Enabled(s, UpdateRules) || Enabled(s, Receive)
    ensures s.held.Some? ==> Enabled(s, Enqueue) || Enabled(s, Publish)
  {
    if s.rx != [] {
      SecondFieldAlwaysPresent(s, s.rx[0]);
    }
  }

  // ----- The environment of a run

  function Exports(steps: seq<Step>): seq<string> {
    if steps == [] then []
    else
      var last := steps[|steps| - 1];
      Exports(steps[..|steps| - 1]) + (if last.NodeExports? then [last.msg] else [])
  }

  function Requests(steps: seq<Step>): seq<PC.Entry> {
    if steps == [] then []
    else
      var last := steps[|steps| - 1];
      Requests(steps[..|steps| - 1]) + (if last.Manage? then [PC.Entry(last.request, last.now)] else [])
  }

  /** What the node exported are the messages of the run, and the manager is in the state
      its own messages lead to. */
  lemma {:induction false} Environment(run: seq<State>, steps: seq<Step>, i: nat)
    requires IsRun(run, steps) && i < |run|
    ensures run[i].exported == run[0].rx + Exports(steps[..i])
    ensures run[i].conn == PC.After(run[0].conn, Requests(steps[..i]))
  {
    if i == 0 {
      assert run[0].rx + [] == run[0].rx;
    } else {
      Environment(run, steps, i - 1);
      var s, a := run[i - 1], steps[i - 1];
      assert IsStep(s, a, run[i]);
      assert steps[..i][..i - 1] == steps[..i - 1];
      StepEnvironment(s, a);
      var before, exported := Requests(steps[..i - 1]), Exports(steps[..i - 1]);
      if a.Manage? {
        assert Requests(steps[..i]) == before + [PC.Entry(a.request, a.now)];
        PC.AfterSnoc(run[0].conn, before, PC.Entry(a.request, a.now));
      } else {
        assert Requests(steps[..i]) == before;
      }
      if a.NodeExports? {
        assert run[0].rx + (exported + [a.msg]) == (run[0].rx + exported) + [a.msg];
      } else {
        assert Exports(steps[..i]) == exported;
      }
      hide *;
    }
  }

  lemma StepEnvironment(s: State, a: Step)
    requires Enabled(s, a)
    ensures Apply(s, a).exported == if a.NodeExports? then s.exported + [a.msg] else s.exported
    ensures Apply(s, a).conn == if a.Manage? then PC.Handle(s.conn, a.request, a.now) else s.conn
  {
    hide PC.Handle, PeerField;
  }
}
