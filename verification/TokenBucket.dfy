/**
 The token bucket: a refill task with separate check and add, acquirers that take a
 token and then a concurrency permit, and rates and concurrency adjustable at run time
 (observer_common/src/token_bucket.rs).
 */
module TokenBucket {

  /** The refill task: waiting for the next tick, ticked and about to compare, or having
      found room and about to add a token. */
  datatype Refill = Waiting | Ticked | Adding

  datatype State =
    State(
      size: nat,        // current bucket size
      available: nat,   // tokens in the bucket
      refill: Refill,
      acquiring: nat,   // acquirers holding a token, waiting for a permit
      free: nat,        // free concurrency permits
      outstanding: nat) // permits handed out

  datatype Step =
    | Tick             // the interval fires
    | Check            // the refill task compares available tokens with the size
    | Add              // the refill task adds the token it decided on
    | Take             // an acquirer takes a token
    | Grant            // an acquirer gets its permit and the token is forgotten
    | Release          // a permit is dropped
    | Cancel           // an acquirer waiting for a permit is cancelled
    | SetRate(n: nat)  // the bucket size is replaced, raised or lowered
    | MorePermits      // one permit is added
    | FewerPermits     // one permit is forgotten, if one is free

  function Init(size: nat, maxConcurrent: nat): State {
    State(size, size, Waiting, 0, maxConcurrent, 0)
  }

  predicate Enabled(s: State, a: Step) {
    match a
    case Tick => s.refill.Waiting?
    case Check => s.refill.Ticked?
    case Add => s.refill.Adding?
    case Take => s.available > 0
    case Grant => s.acquiring > 0 && s.free > 0
    case Release => s.outstanding > 0
    case Cancel => s.acquiring > 0
    case SetRate(_) => true
    case MorePermits => true
    case FewerPermits => true
  }

  function Apply(s: State, a: Step): State
    requires Enabled(s, a)
  {
    match a
    case Tick => s.(refill := Ticked)
    case Check => s.(refill := if s.available < s.size then Adding else Waiting)
    case Add => s.(available := s.available + 1, refill := Waiting)
    case Take => s.(available := s.available - 1, acquiring := s.acquiring + 1)
    case Grant => s.(acquiring := s.acquiring - 1, free := s.free - 1, outstanding := s.outstanding + 1)
    case Release => s.(free := s.free + 1, outstanding := s.outstanding - 1)
    case Cancel => s.(acquiring := s.acquiring - 1, available := s.available + 1)
    case SetRate(n) => s.(size := n)
    case MorePermits => s.(free := s.free + 1)
    case FewerPermits => s.(free := if s.free > 0 then s.free - 1 else 0)
  }

  ghost predicate IsRun(run: seq<State>, steps: seq<Step>) {
    |run| == |steps| + 1 && forall i :: 0 <= i < |steps| ==> IsStep(run[i], steps[i], run[i + 1])
  }

  ghost predicate IsStep(s: State, a: Step, t: State) {
    Enabled(s, a) && t == Apply(s, a)
  }

  /** A run from a new bucket whose size stays at most `cap`. */
  ghost predicate CappedRun(run: seq<State>, steps: seq<Step>, cap: nat) {
    && IsRun(run, steps)
    && run[0] == Init(run[0].size, run[0].free)
    && (forall i :: 0 <= i < |run| ==> run[i].size <= cap)
  }

  function Count(steps: seq<Step>, a: Step): nat {
    if steps == [] then 0 else Count(steps[..|steps| - 1], a) + (if steps[|steps| - 1] == a then 1 else 0)
  }

  lemma CountNext(steps: seq<Step>, i: nat, j: nat, a: Step)
    requires i < j <= |steps|
    ensures Count(steps[i..j], a) == Count(steps[i..j - 1], a) + (if steps[j - 1] == a then 1 else 0)
  {
    assert steps[i..j][..j - 1 - i] == steps[i..j - 1];
  }

  // ----- How full the bucket can get

  /** The tokens in the bucket, counting the one the refill task has decided to add but
      not added yet. */
  function Level(s: State): nat {
    s.available + (if s.refill.Adding? then 1 else 0)
  }

  /** The level exceeds the cap by at most one per cancelled acquire. */
  lemma {:induction false} NeverOverfull(run: seq<State>, steps: seq<Step>, cap: nat, i: nat)
    requires CappedRun(run, steps, cap) && i < |run|
    ensures Level(run[i]) <= cap + Count(steps[..i], Cancel)
  {
    if i > 0 {
      NeverOverfull(run, steps, cap, i - 1);
      assert IsStep(run[i - 1], steps[i - 1], run[i]);
      CountNext(steps, 0, i, Cancel);
    }
  }

  ghost predicate NeverAbove(run: seq<State>, cap: nat) {
    forall i :: 0 <= i < |run| ==> Level(run[i]) <= cap
  }

  /** Every acquire that is cancelled returns its token to a bucket with room for it. */
  ghost predicate CancelsFindRoom(run: seq<State>, steps: seq<Step>, cap: nat)
    requires |run| == |steps| + 1
  {
    forall i :: 0 <= i < |steps| && steps[i] == Cancel ==> Level(run[i]) < cap
  }

  /** The exact condition for the bucket never to be overfull: the only step without a
      guard against it is the return of a cancelled acquire's token. */
  lemma NeverAboveIff(run: seq<State>, steps: seq<Step>, cap: nat)
    requires CappedRun(run, steps, cap)
    ensures NeverAbove(run, cap) <==> CancelsFindRoom(run, steps, cap)
  {
    if NeverAbove(run, cap) {
      forall i | 0 <= i < |steps| && steps[i] == Cancel ensures Level(run[i]) < cap {
        assert IsStep(run[i], steps[i], run[i + 1]);
        assert Level(run[i + 1]) <= cap;
      }
    }
    if CancelsFindRoom(run, steps, cap) {
      forall i | 0 <= i < |run| ensures Level(run[i]) <= cap {
        RoomKeepsBelow(run, steps, cap, i);
      }
    }
  }

  lemma {:induction false} RoomKeepsBelow(run: seq<State>, steps: seq<Step>, cap: nat, i: nat)
    requires CappedRun(run, steps, cap) && CancelsFindRoom(run, steps, cap) && i < |run|
    ensures Level(run[i]) <= cap
  {
    if i > 0 {
      RoomKeepsBelow(run, steps, cap, i - 1);
      assert IsStep(run[i - 1], steps[i - 1], run[i]);
    }
  }

  lemma OneMoreStep(run: seq<State>, steps: seq<Step>, i: nat, cap: nat) returns (longer: seq<State>)
    requires i < |steps| && CappedRun(run, steps[..i], cap)
    requires Enabled(run[i], steps[i]) && Apply(run[i], steps[i]).size <= cap
    ensures CappedRun(longer, steps[..i + 1], cap)
    ensures longer == run + [Apply(run[i], steps[i])]
  {
    longer := run + [Apply(run[i], steps[i])];
    forall k | 0 <= k < i + 1 ensures IsStep(longer[k], steps[..i + 1][k], longer[k + 1]) {
      if k < i {
        assert IsStep(run[k], steps[..i][k], run[k + 1]);
      }
    }
    hide IsStep;
  }

  /** One permit is handed out, then an acquire waits for it while the refill task
      replaces both tokens, and is cancelled. */
  const OVERFILL := [Take, Grant, Take, Tick, Check, Add, Tick, Check, Add, Cancel]

  function Overfilling(i: nat): State
    requires i <= 10
  {
    if i == 0 then Init(2, 1)
    else if i == 1 then State(2, 1, Waiting, 1, 1, 0)
    else if i == 2 then State(2, 1, Waiting, 0, 0, 1)
    else if i == 10 then State(2, 3, Waiting, 0, 0, 1)
    else
      var refill := if i == 4 || i == 7 then Ticked else if i == 5 || i == 8 then Adding else Waiting;
      State(2, if i < 6 then 0 else if i < 9 then 1 else 2, refill, 1, 0, 1)
  }

  lemma OverfillingStep(i: nat)
    requires i < 10
    ensures Enabled(Overfilling(i), OVERFILL[i]) && Apply(Overfilling(i), OVERFILL[i]) == Overfilling(i + 1)
    ensures Overfilling(i + 1).size == 2
  {
  }

  lemma {:induction false} OverfillingRun(i: nat) returns (run: seq<State>)
    requires i <= 10
    ensures CappedRun(run, OVERFILL[..i], 2)
    ensures run[0] == Overfilling(0) && run[i] == Overfilling(i)
  {
    if i == 0 {
      run := [Init(2, 1)];
    } else {
      run := OverfillingRun(i - 1);
      OverfillingStep(i - 1);
      hide *;
      run := OneMoreStep(run, OVERFILL, i - 1, 2);
    }
  }

  /** It can fail: a bucket of size two with one permit is left with three tokens. */
  lemma CancelCanOverfill() returns (run: seq<State>)
    ensures CappedRun(run, OVERFILL, 2) && run[0] == Init(2, 1)
    ensures run[10].available == 3
    ensures !CancelsFindRoom(run, OVERFILL, 2)
  {
    run := OverfillingRun(10);
    assert OVERFILL[..10] == OVERFILL;
    hide CappedRun, CancelsFindRoom;
    NeverAboveIff(run, OVERFILL, 2);
    assert Level(run[10]) == 3;
  }

  // ----- How empty it can stay

  /** A stretch of a run over which the bucket size is at least `low`. */
  ghost predicate SizedFrom(run: seq<State>, i: nat, j: nat, low: nat)
    requires i <= j < |run|
  {
    forall k :: i <= k <= j ==> run[k].size >= low
  }

  /** Refilling works: over any stretch, the level plus what was taken reaches the least
      bucket size, or has grown by one per check. */
  lemma {:induction false} Refilled(run: seq<State>, steps: seq<Step>, i: nat, j: nat, low: nat)
    requires IsRun(run, steps) && i <= j < |run| && SizedFrom(run, i, j, low)
    ensures var filled := Level(run[i]) + Count(steps[i..j], Check);
            Level(run[j]) + Count(steps[i..j], Take) >= if filled < low then filled else low
  {
    if i < j {
      Refilled(run, steps, i, j - 1, low);
      assert IsStep(run[j - 1], steps[j - 1], run[j]);
      assert run[j - 1].size >= low;
      CountNext(steps, i, j, Take);
      CountNext(steps, i, j, Check);
    } else {
      assert steps[i..j] == [];
    }
  }

  /** So `low` ticks during which no token is taken bring the bucket to `low`, whatever its
      level was, once the last of them is handled. */
  lemma TicksFill(run: seq<State>, steps: seq<Step>, i: nat, j: nat, low: nat)
    requires IsRun(run, steps) && i <= j < |run| && SizedFrom(run, i, j, low)
    requires Count(steps[i..j], Take) == 0 && run[j].refill.Waiting?
    requires Count(steps[i..j], Tick) >= low
    ensures run[j].available >= low
  {
    Refilled(run, steps, i, j, low);
    OneCheckPerTick(run, steps, i, j);
  }

  /** Step `k` is the last of the first `i` to set the rate. */
  ghost predicate LastSet(steps: seq<Step>, i: nat, k: int)
    requires i <= |steps|
  {
    0 <= k < i && steps[k].SetRate? && forall m :: k < m < i ==> !steps[m].SetRate?
  }

  /** The bucket size is the one set last, or the first one. */
  lemma {:induction false} SizeIsLastSet(run: seq<State>, steps: seq<Step>, i: nat)
    requires IsRun(run, steps) && i < |run|
    ensures forall k :: LastSet(steps, i, k) ==> run[i].size == steps[k].n
    ensures (forall k :: !LastSet(steps, i, k)) ==> run[i].size == run[0].size
  {
    if i > 0 {
      SizeIsLastSet(run, steps, i - 1);
      assert IsStep(run[i - 1], steps[i - 1], run[i]);
      if steps[i - 1].SetRate? {
        assert LastSet(steps, i, i - 1);
      } else {
        var before := i - 1;
        forall k ensures LastSet(steps, before, k) <==> LastSet(steps, i, k) {
        }
      }
    }
  }

  // ----- The rate limit

  /** Over any stretch, tokens are accounted for: what is there or owed at the end plus
      what was taken is at most what was there or owed at the start plus one per check
      and per cancelled acquire. */
  lemma {:induction false} TokensAccounted(run: seq<State>, steps: seq<Step>, i: nat, j: nat)
    requires IsRun(run, steps) && i <= j < |run|
    ensures Level(run[j]) + Count(steps[i..j], Take)
            <= Level(run[i]) + Count(steps[i..j], Check) + Count(steps[i..j], Cancel)
  {
    if i < j {
      TokensAccounted(run, steps, i, j - 1);
      assert IsStep(run[j - 1], steps[j - 1], run[j]);
      CountNext(steps, i, j, Take);
      CountNext(steps, i, j, Check);
      CountNext(steps, i, j, Cancel);
    } else {
      assert steps[i..j] == [];
    }
  }

  /** The refill task checks once per tick. */
  lemma {:induction false} OneCheckPerTick(run: seq<State>, steps: seq<Step>, i: nat, j: nat)
    requires IsRun(run, steps) && i <= j < |run|
    ensures Count(steps[i..j], Check) + (if run[j].refill.Ticked? then 1 else 0)
            == Count(steps[i..j], Tick) + (if run[i].refill.Ticked? then 1 else 0)
  {
    if i < j {
      OneCheckPerTick(run, steps, i, j - 1);
      assert IsStep(run[j - 1], steps[j - 1], run[j]);
      CountNext(steps, i, j, Check);
      CountNext(steps, i, j, Tick);
    } else {
      assert steps[i..j] == [];
    }
  }

  /** Every token taken ends in a permit or a cancelled acquire, or is still held. */
  lemma {:induction false} TakenTokensEnd(run: seq<State>, steps: seq<Step>, i: nat, j: nat)
    requires IsRun(run, steps) && i <= j < |run|
    ensures Count(steps[i..j], Grant) + Count(steps[i..j], Cancel) + run[j].acquiring
            == Count(steps[i..j], Take) + run[i].acquiring
  {
    if i < j {
      TakenTokensEnd(run, steps, i, j - 1);
      assert IsStep(run[j - 1], steps[j - 1], run[j]);
      CountNext(steps, i, j, Grant);
      CountNext(steps, i, j, Cancel);
      CountNext(steps, i, j, Take);
    } else {
      assert steps[i..j] == [];
    }
  }

  lemma {:induction false} CountSplit(steps: seq<Step>, i: nat, j: nat, a: Step)
    requires i <= j <= |steps|
    ensures Count(steps[..j], a) == Count(steps[..i], a) + Count(steps[i..j], a)
    decreases j
  {
    if i < j {
      CountSplit(steps, i, j - 1, a);
      CountNext(steps, 0, j, a);
      CountNext(steps, i, j, a);
      assert steps[0..j] == steps[..j] && steps[0..j - 1] == steps[..j - 1];
    } else {
      assert steps[i..j] == [];
    }
  }

  /** The rate limit: over any stretch of any run, the tokens taken are at most the cap
      plus one per refill tick and per acquire cancelled so far; a tick whose check falls
      into the stretch counts.  While the bucket is never overfull, only the acquires
      cancelled within the stretch matter. */
  lemma RateLimit(run: seq<State>, steps: seq<Step>, cap: nat, i: nat, j: nat)
    requires CappedRun(run, steps, cap) && i <= j < |run|
    ensures Count(steps[i..j], Take) <= cap + Count(steps[i..j], Check) + Count(steps[..j], Cancel)
    ensures !run[i].refill.Ticked? ==>
              Count(steps[i..j], Take) <= cap + Count(steps[i..j], Tick) + Count(steps[..j], Cancel)
    ensures CancelsFindRoom(run, steps, cap) ==>
              Count(steps[i..j], Take) <= cap + Count(steps[i..j], Check) + Count(steps[i..j], Cancel)
  {
    NeverOverfull(run, steps, cap, i);
    TokensAccounted(run, steps, i, j);
    OneCheckPerTick(run, steps, i, j);
    CountSplit(steps, i, j, Cancel);
    if CancelsFindRoom(run, steps, cap) {
      RoomKeepsBelow(run, steps, cap, i);
    }
  }

  /** Cancelled acquires never buy a completed one: since the bucket was made, the
      acquires that got their permit are at most its first size plus the ticks. */
  lemma CompletedAcquires(run: seq<State>, steps: seq<Step>, cap: nat, j: nat)
    requires CappedRun(run, steps, cap) && j < |run|
    ensures Count(steps[..j], Grant) <= run[0].size + Count(steps[..j], Tick)
  {
    assert steps[0..j] == steps[..j];
    TokensAccounted(run, steps, 0, j);
    OneCheckPerTick(run, steps, 0, j);
    TakenTokensEnd(run, steps, 0, j);
  }

  // ----- Concurrency

  /** The permits forgotten by the first `i` steps; with none free there is nothing to
      forget. */
  function Forgotten(run: seq<State>, steps: seq<Step>, i: nat): nat
    requires i <= |steps| <= |run|
  {
    if i == 0 then 0
    else Forgotten(run, steps, i - 1) + (if steps[i - 1].FewerPermits? && run[i - 1].free > 0 then 1 else 0)
  }

  /** Every permit outstanding was granted and not released. */
  lemma {:induction false} OutstandingPermits(run: seq<State>, steps: seq<Step>, i: nat)
    requires IsRun(run, steps) && i < |run|
    ensures run[i].outstanding + Count(steps[..i], Release) == run[0].outstanding + Count(steps[..i], Grant)
  {
    if i > 0 {
      OutstandingPermits(run, steps, i - 1);
      assert IsStep(run[i - 1], steps[i - 1], run[i]);
      CountNext(steps, 0, i, Release);
      CountNext(steps, 0, i, Grant);
    }
  }

  /** Permits are conserved: those handed out, free and forgotten are the ones the bucket
      was made with and those added. */
  lemma {:induction false} PermitsConserved(run: seq<State>, steps: seq<Step>, i: nat)
    requires IsRun(run, steps) && i < |run|
    ensures run[i].free + run[i].outstanding + Forgotten(run, steps, i)
            == run[0].free + run[0].outstanding + Count(steps[..i], MorePermits)
  {
    if i > 0 {
      PermitsConserved(run, steps, i - 1);
      assert IsStep(run[i - 1], steps[i - 1], run[i]);
      CountNext(steps, 0, i, MorePermits);
    }
  }
}
