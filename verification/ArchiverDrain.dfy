/**
 The archiver pipeline always drains: no state is stuck, and without new input every
 schedule runs out of steps.
 */
module ArchiverDrain {
  import opened Prelude
  import opened KeyedFold
  import opened ArchiverTypes
  import opened Archiver
  import opened ArchiverProofs
  import opened ArchiverTables

  /** Steps other than new input: a message received or the flush timer firing. */
  predicate Internal(a: Step) {
    !a.TakeMessage? && !a.FlushInterval?
  }

  /** Work left before the pipeline is idle, weighing each item by what it can cause. */
  function Work(s: State): nat {
    (match s.ticker
     case Idle => 0
     case AwaitFlush(next) => 6 + (if next.Some? then 24 else 0)
     case SendRaw(_) => 24
     case SendTiming(_) => 18
     case SendMeta(_) => 12
     case SendHash(_) => 6)
    + 5 * s.ticks
    + 5 * (|s.raw.channel| + |s.timing.channel| + |s.meta.channel| + |s.hash.channel|)
    + (if s.raw.writing.Some? then 1 else 0) + (if s.timing.writing.Some? then 1 else 0)
    + (if s.meta.writing.Some? then 1 else 0) + (if s.hash.writing.Some? then 1 else 0)
  }

  lemma HandleWork(s: State, e: Event)
    requires !Writing(s)
    ensures Work(Handle(s, e)) <= Work(s) + 4
    ensures Handle(s, e).ticks == s.ticks && Handle(s, e).taken == s.taken
  {
  }

  /** Every internal step, whichever task takes it, reduces the work. */
  lemma StepReducesWork(s: State, a: Step)
    requires Enabled(s, a) && Internal(a)
    ensures Work(Apply(s, a)) < Work(s) && Apply(s, a).taken == s.taken
    ensures s.ticks <= 1 ==> Apply(s, a).ticks <= 1
  {
    hide Handle, PutAll, SortByTime;
    match a
    case RecvTick => HandleWork(s.(ticks := s.ticks - 1), Tick);
    case RecvRaw => HandleWork(s.(raw := Drop(s.raw)), GotRaw(s.raw.channel[0]));
    case RecvTiming => HandleWork(s.(timing := Drop(s.timing)), GotTiming(s.timing.channel[0]));
    case RecvMeta => HandleWork(s.(meta := Drop(s.meta)), GotMeta(s.meta.channel[0]));
    case RecvHash => HandleWork(s.(hash := Drop(s.hash)), GotHash(s.hash.channel[0]));
    case _ =>
  }

  /** With work left some internal step is possible; in particular the bounded flush
      channel cannot deadlock the pipeline. */
  lemma NeverStuck(s: State) returns (a: Step)
    requires s.ticks <= 1 && Work(s) > 0
    ensures Enabled(s, a) && Internal(a)
  {
    a := if s.raw.writing.Some? then WriteRaw
         else if s.timing.writing.Some? then WriteTiming
         else if s.meta.writing.Some? then WriteMeta
         else if s.hash.writing.Some? then WriteHash
         else if s.ticks > 0 then RecvTick
         else if s.ticker.AwaitFlush? then SignalFlush
         else if !s.ticker.Idle? then SendNext
         else if s.raw.channel != [] then RecvRaw
         else if s.timing.channel != [] then RecvTiming
         else if s.meta.channel != [] then RecvMeta
         else RecvHash;
  }

  // ----- Every schedule runs out

  ghost predicate NoInput(steps: seq<Step>, i: nat, j: nat)
    requires i <= j <= |steps|
  {
    forall k :: i <= k < j ==> Internal(steps[k])
  }

  /** No task of the pipeline can do anything until there is new input. */
  ghost predicate Settled(s: State) {
    forall a :: Internal(a) ==> !Enabled(s, a)
  }

  lemma SettledIffNoWork(s: State)
    requires s.ticks <= 1
    ensures Settled(s) <==> Work(s) == 0
  {
    if Work(s) > 0 {
      var a := NeverStuck(s);
    } else {
      forall a | Internal(a) ensures !Enabled(s, a) {
        if Enabled(s, a) {
          StepReducesWork(s, a);
        }
      }
    }
  }

  lemma OneTick(run: seq<State>, steps: seq<Step>, i: nat)
    requires IsRun(run, steps) && i < |run|
    ensures run[i].ticks <= 1
  {
    RunsKeepInv(run, steps, i);
  }

  /** However unfairly its tasks are scheduled, a stretch of a run without new input has at
      most as many steps as there was work at its start, and it can be extended until,
      and only until, no work is left. */
  lemma {:induction false} EveryScheduleEnds(run: seq<State>, steps: seq<Step>, i: nat, j: nat)
    requires IsRun(run, steps) && i <= j < |run| && NoInput(steps, i, j)
    ensures j - i + Work(run[j]) <= Work(run[i])
    ensures run[j].taken == run[i].taken
    ensures Settled(run[j]) <==> Work(run[j]) == 0
  {
    hide Work, Settled, Internal;
    OneTick(run, steps, j);
    SettledIffNoWork(run[j]);
    if i < j {
      EveryScheduleEnds(run, steps, i, j - 1);
      assert IsStep(run[j - 1], steps[j - 1], run[j]);
      assert Internal(steps[j - 1]);
      hide Apply, Enabled;
      StepReducesWork(run[j - 1], steps[j - 1]);
    }
  }

  /** A flush is on its way to a handler that has nothing left to receive. */
  ghost predicate LastFlush(s: State) {
    && s.raw.channel == [] && s.timing.channel == [] && s.meta.channel == [] && s.hash.channel == []
    && (s.ticker.Idle? || s.ticker == AwaitFlush(None))
    && (s.buffers == NoBuffers || s.ticker.AwaitFlush? || s.ticks > 0)
  }

  lemma StepKeepsLastFlush(s: State, a: Step)
    requires LastFlush(s) && Enabled(s, a) && Internal(a)
    ensures LastFlush(Apply(s, a))
  {
    hide PutAll, SortByTime;
  }

  lemma {:induction false} LastFlushStays(run: seq<State>, steps: seq<Step>, i: nat, j: nat)
    requires IsRun(run, steps) && i <= j < |run| && NoInput(steps, i, j) && LastFlush(run[i])
    ensures LastFlush(run[j])
  {
    if i < j {
      LastFlushStays(run, steps, i, j - 1);
      assert IsStep(run[j - 1], steps[j - 1], run[j]);
      hide LastFlush, Internal;
      assert Internal(steps[j - 1]);
      StepKeepsLastFlush(run[j - 1], steps[j - 1]);
    }
  }

  /** Every schedule drains: once no message arrives, the pipeline settles at some point
      `m`; when the flush timer then fires, it settles again within six steps, and with
      nothing in flight. */
  lemma EveryScheduleDrains(run: seq<State>, steps: seq<Step>, m: nat, j: nat)
    requires IsRun(run, steps) && m < j < |run|
    requires Settled(run[m]) && steps[m] == FlushInterval && NoInput(steps, m + 1, j)
    ensures j <= m + 7 && run[j].taken == run[m].taken
    ensures Settled(run[j]) <==> Quiescent(run[j]) && run[j].ticks == 0
  {
    OneTick(run, steps, m);
    SettledIffNoWork(run[m]);
    assert IsStep(run[m], steps[m], run[m + 1]);
    assert LastFlush(run[m + 1]) && Work(run[m + 1]) == 6;
    EveryScheduleEnds(run, steps, m + 1, j);
    LastFlushStays(run, steps, m + 1, j);
    hide IsRun, NoInput, Settled;
  }

  // ----- From every state there is a way to quiescence

  /** `steps` lead from `s` to `t` without receiving new messages. */
  ghost predicate LeadsTo(s: State, steps: seq<Step>, t: State)
    decreases |steps|
  {
    if steps == [] then s == t
    else Enabled(s, steps[0]) && !steps[0].TakeMessage? && LeadsTo(Apply(s, steps[0]), steps[1..], t)
  }

  lemma {:induction false} Prepend(s: State, a: Step, steps: seq<Step>, t: State)
    requires Enabled(s, a) && !a.TakeMessage? && LeadsTo(Apply(s, a), steps, t)
    ensures LeadsTo(s, [a] + steps, t)
  {
    assert ([a] + steps)[1..] == steps;
  }

  lemma {:induction false} Settle(s: State) returns (steps: seq<Step>, t: State)
    requires s.ticks <= 1
    ensures LeadsTo(s, steps, t) && Work(t) == 0 && t.ticks <= 1 && t.taken == s.taken
    ensures LastFlush(s) ==> LastFlush(t)
    decreases Work(s)
  {
    if Work(s) == 0 {
      steps, t := [], s;
    } else {
      var a := NeverStuck(s);
      StepReducesWork(s, a);
      if LastFlush(s) {
        StepKeepsLastFlush(s, a);
      }
      hide Work, LastFlush, Apply;
      steps, t := Settle(Apply(s, a));
      Prepend(s, a, steps, t);
      steps := [a] + steps;
    }
  }

  lemma {:induction false} Join(s: State, first: seq<Step>, t: State, second: seq<Step>, u: State)
    requires LeadsTo(s, first, t) && LeadsTo(t, second, u)
    ensures LeadsTo(s, first + second, u)
    decreases |first|
  {
    if first == [] {
      assert first + second == second;
    } else {
      Join(Apply(s, first[0]), first[1..], t, second, u);
      assert (first + second)[1..] == first[1..] + second;
    }
  }

  /** From every state of every run the pipeline can reach quiescence without new
      messages: it settles, the flush timer fires, and it settles again. */
  lemma EveryRunCanDrain(run: seq<State>, steps: seq<Step>, i: nat) returns (more: seq<Step>, t: State)
    requires IsRun(run, steps) && i < |run|
    ensures LeadsTo(run[i], more, t) && Quiescent(t) && t.taken == run[i].taken
  {
    OneTick(run, steps, i);
    var first, m := Settle(run[i]);
    var flushing := Apply(m, FlushInterval);
    var second, u := Settle(flushing);
    Prepend(m, FlushInterval, second, u);
    Join(run[i], first, m, [FlushInterval] + second, u);
    more, t := first + ([FlushInterval] + second), u;
  }
}
