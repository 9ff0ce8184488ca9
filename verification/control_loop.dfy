/**
 * The autoscaler's control loop (`main`, lines 251-291): one poll cycle
 * reads the backlog, updates the low-backlog streak, lists the workers,
 * picks a desired count and, outside the cooldown window, asks the fleet to
 * converge on it. Clock readings and every backend answer are parameters.
 */
module ControlLoop {
  import opened Wrappers
  import opened ScalingPolicy
  import opened Fleet

  /**
   * The management API's answer: any error (connection, HTTP status,
   * JSON), or the body's `messages` field, absent or present.
   */
  datatype QueueFetch = FetchFailed | Fetched(messages: Option<int>)

  /** `get_queue_length` (lines 114-121): 0 on any error and when the field is absent. */
  function QueueLength(fetch: QueueFetch): (q: int)
    ensures q != 0 ==> fetch == Fetched(Some(q))
    ensures fetch.Fetched? && fetch.messages.Some? ==> q == fetch.messages.value
  {
    match fetch
    case FetchFailed => 0
    case Fetched(None) => 0
    case Fetched(Some(n)) => n
  }

  /**
   * An outage of the management API reads as an empty queue, so a pool
   * above `MIN` is asked to shrink straight to `MIN`.
   */
  lemma OutageShrinksToMin(cfg: Config, current: int, streak: nat)
    requires 0 <= cfg.minContainers <= cfg.maxContainers && cfg.scaleDownThreshold >= 0
    requires current > cfg.minContainers
    ensures DesiredCount(cfg, current, QueueLength(FetchFailed), NextStreak(cfg, streak, QueueLength(FetchFailed)))
         == cfg.minContainers
  {
    EmptyQueueGoesToMin(cfg, current, NextStreak(cfg, streak, 0));
  }

  /** Everything one cycle observes: the backlog, both listings, the clock, and the CLI's answers. */
  datatype CycleInput = CycleInput(
    fetch: QueueFetch,
    listing: Listing,
    now: int,
    rescan: Listing,
    stamp: nat -> nat,
    startResult: nat -> CmdResult,
    stopResult: nat -> CmdResult,
    rmResult: nat -> CmdResult)

  /**
   * How a cycle ends: the process died (an `OSError` from `docker ps`), nothing
   * to do, an action suppressed by the cooldown, or a call to `scale_workers`.
   */
  datatype CycleOutcome = Crashed | Steady | CoolingDown | Acted(scale: ScaleOutcome)

  predicate IsCrash(outcome: CycleOutcome)
  {
    outcome == Crashed || outcome == Acted(ListingCrashed)
  }

  /** One pass of the `while True` body, from the state before it to the state after it. */
  ghost predicate CycleSpec(cfg: Config, streak: nat, lastScale: int, input: CycleInput,
                            outcome: CycleOutcome, streak': nat, lastScale': int)
  {
    var q := QueueLength(input.fetch);
    && streak' == NextStreak(cfg, streak, q)
    && match RunningWorkers(input.listing)
       case None => outcome == Crashed && lastScale' == lastScale
       case Some(workers) =>
         var current := |workers|;
         var desired := DesiredCount(cfg, current, q, streak');
         if desired == current then
           outcome == Steady && lastScale' == lastScale
         else if input.now - lastScale < cfg.cooldownPeriod then
           outcome == CoolingDown && lastScale' == lastScale
         else
           && outcome.Acted?
           && ScaleSpec(cfg.workerPrefix, desired, input.rescan, input.stamp,
                        input.startResult, input.stopResult, input.rmResult, outcome.scale)
           && lastScale' == (if outcome.scale.Scaled? && outcome.scale.changed then input.now else lastScale)
  }

  /** The streak after a run of backlogs, starting from `streak`. */
  function StreakAfter(cfg: Config, streak: nat, backlogs: seq<int>): nat
  {
    if backlogs == [] then streak
    else NextStreak(cfg, StreakAfter(cfg, streak, backlogs[..|backlogs| - 1]), backlogs[|backlogs| - 1])
  }

  function Backlogs(inputs: seq<CycleInput>): (qs: seq<int>)
    ensures |qs| == |inputs|
    ensures forall i :: 0 <= i < |inputs| ==> qs[i] == QueueLength(inputs[i].fetch)
  {
    if inputs == [] then [] else Backlogs(inputs[..|inputs| - 1]) + [QueueLength(inputs[|inputs| - 1].fetch)]
  }

  /**
   * From a fresh start the streak is the length of the run of low backlogs
   * that ends the history: they are all at or below the threshold, and the
   * cycle before them (if any) was above it.
   */
  lemma {:induction false} StreakIsTrailingLowRun(cfg: Config, backlogs: seq<int>)
    ensures var k := StreakAfter(cfg, 0, backlogs);
      && k <= |backlogs|
      && (forall i :: |backlogs| - k <= i < |backlogs| ==> backlogs[i] <= cfg.scaleDownThreshold)
      && (k < |backlogs| ==> backlogs[|backlogs| - k - 1] > cfg.scaleDownThreshold)
    decreases |backlogs|
  {
    if backlogs != [] {
      var init := backlogs[..|backlogs| - 1];
      StreakIsTrailingLowRun(cfg, init);
      var k0 := StreakAfter(cfg, 0, init);
      var k := StreakAfter(cfg, 0, backlogs);
      if backlogs[|backlogs| - 1] <= cfg.scaleDownThreshold {
        assert k == k0 + 1;
        forall i | |backlogs| - k <= i < |backlogs|
          ensures backlogs[i] <= cfg.scaleDownThreshold
        {
          if i < |backlogs| - 1 {
            assert backlogs[i] == init[i];
          }
        }
        if k < |backlogs| {
          assert backlogs[|backlogs| - k - 1] == init[|init| - k0 - 1];
        }
      }
    }
  }

  /** The autoscaler process: its configuration and the two variables `main` carries across cycles. */
  class Autoscaler {
    const cfg: Config
    var downStreak: nat
    var lastScaleTime: int

    /** `DOWN_STREAK = 0` and `last_scale_time = 0` before the first cycle. */
    constructor(cfg: Config)
      ensures this.cfg == cfg && downStreak == 0 && lastScaleTime == 0
    {
      this.cfg := cfg;
      downStreak := 0;
      lastScaleTime := 0;
    }

    /** One cycle of lines 258-289. */
    method Cycle(input: CycleInput) returns (outcome: CycleOutcome)
      modifies this
      ensures CycleSpec(cfg, old(downStreak), old(lastScaleTime), input, outcome, downStreak, lastScaleTime)
    {
      var queueLength := QueueLength(input.fetch);
      if queueLength <= cfg.scaleDownThreshold {
        downStreak := downStreak + 1;
      } else {
        downStreak := 0;
      }

      var workers := RunningWorkers(input.listing);
      if workers.None? {
        return Crashed;
      }
      var current := |workers.value|;
      var desired := DesiredCount(cfg, current, queueLength, downStreak);

      if desired == current {
        outcome := Steady;
      } else if input.now - lastScaleTime < cfg.cooldownPeriod {
        outcome := CoolingDown;
      } else {
        var scale := ScaleWorkers(cfg.workerPrefix, desired, input.rescan, input.stamp,
                                  input.startResult, input.stopResult, input.rmResult);
        if scale.Scaled? && scale.changed {
          lastScaleTime := input.now;
        }
        outcome := Acted(scale);
      }
    }

    /**
     * The `while True` loop over a finite run of cycles; it ends early when
     * a cycle crashes the process. `streaks` and `lasts` are the values of
     * `DOWN_STREAK` and `last_scale_time` before each cycle and after the last.
     */
    method Run(inputs: seq<CycleInput>) returns (outcomes: seq<CycleOutcome>, ghost streaks: seq<nat>, ghost lasts: seq<int>)
      modifies this
      ensures |outcomes| <= |inputs|
      ensures CrashOnlyLast(outcomes)
      ensures |outcomes| < |inputs| ==> |outcomes| > 0 && IsCrash(outcomes[|outcomes| - 1])
      ensures Trace(cfg, inputs, outcomes, streaks, lasts)
      ensures RunSoFar(cfg, old(downStreak), old(lastScaleTime), inputs, outcomes, streaks, lasts)
      ensures downStreak == streaks[|outcomes|] && lastScaleTime == lasts[|outcomes|]
    {
      outcomes := [];
      streaks := [downStreak];
      lasts := [lastScaleTime];
      var i := 0;
      var crashed := false;
      assert Backlogs(inputs[..0]) == [];
      while i < |inputs| && !crashed
        invariant 0 <= i <= |inputs| && |outcomes| == i
        invariant CrashOnlyLast(outcomes)
        invariant crashed <==> i > 0 && IsCrash(outcomes[i - 1])
        invariant Trace(cfg, inputs, outcomes, streaks, lasts)
        invariant RunSoFar(cfg, old(downStreak), old(lastScaleTime), inputs, outcomes, streaks, lasts)
        invariant downStreak == streaks[i] && lastScaleTime == lasts[i]
      {
        ghost var streakBefore, lastBefore := downStreak, lastScaleTime;
        var outcome := Cycle(inputs[i]);
        CycleEffect(cfg, streakBefore, lastBefore, inputs[i], outcome, downStreak, lastScaleTime);
        TraceStep(cfg, inputs, outcomes, streaks, lasts, outcome, downStreak, lastScaleTime);
        RunStep(cfg, old(downStreak), old(lastScaleTime), inputs, outcomes, streaks, lasts,
                outcome, downStreak, lastScaleTime);
        CrashOnlyLastStep(outcomes, outcome);
        outcomes := outcomes + [outcome];
        streaks := streaks + [downStreak];
        lasts := lasts + [lastScaleTime];
        crashed := IsCrash(outcome);
        i := i + 1;
      }
    }
  }

  /**
   * The first `|outcomes|` cycles of a run from `(streak0, last0)`: the
   * streak is the fold of their backlogs, and the last scale time is that
   * of the latest change.
   */
  ghost predicate RunSoFar(cfg: Config, streak0: nat, last0: int, inputs: seq<CycleInput>,
                           outcomes: seq<CycleOutcome>, streaks: seq<nat>, lasts: seq<int>)
  {
    && |outcomes| <= |inputs| && |streaks| == |outcomes| + 1 && |lasts| == |outcomes| + 1
    && streaks[0] == streak0 && lasts[0] == last0
    && streaks[|outcomes|] == StreakAfter(cfg, streak0, Backlogs(inputs[..|outcomes|]))
    && LatestChange(lasts[|outcomes|], last0, inputs, outcomes)
  }

  lemma RunStep(cfg: Config, streak0: nat, last0: int, inputs: seq<CycleInput>,
                outcomes: seq<CycleOutcome>, streaks: seq<nat>, lasts: seq<int>,
                outcome: CycleOutcome, streak': nat, lastScale': int)
    requires RunSoFar(cfg, streak0, last0, inputs, outcomes, streaks, lasts) && |outcomes| < |inputs|
    requires streak' == NextStreak(cfg, streaks[|outcomes|], QueueLength(inputs[|outcomes|].fetch))
    requires lastScale' == if Changed(outcome) then inputs[|outcomes|].now else lasts[|outcomes|]
    ensures RunSoFar(cfg, streak0, last0, inputs, outcomes + [outcome], streaks + [streak'], lasts + [lastScale'])
  {
    var n := |outcomes|;
    StreakStep(cfg, streak0, inputs, n);
    LatestChangeStep(lasts[n], lastScale', last0, inputs, outcomes, outcome);
    var ss, ls := streaks + [streak'], lasts + [lastScale'];
    assert ss[0] == streak0 && ls[0] == last0 && ss[n + 1] == streak' && ls[n + 1] == lastScale';
  }

  /** Only the final cycle of a run may have crashed the process. */
  predicate CrashOnlyLast(outcomes: seq<CycleOutcome>)
  {
    forall j :: 0 <= j < |outcomes| - 1 ==> !IsCrash(outcomes[j])
  }

  lemma CrashOnlyLastStep(outcomes: seq<CycleOutcome>, outcome: CycleOutcome)
    requires CrashOnlyLast(outcomes)
    requires |outcomes| > 0 ==> !IsCrash(outcomes[|outcomes| - 1])
    ensures CrashOnlyLast(outcomes + [outcome])
  {
    var extended := outcomes + [outcome];
    forall j | 0 <= j < |extended| - 1 ensures !IsCrash(extended[j]) {
      assert extended[j] == outcomes[j];
    }
  }

  /**
   * Each cycle of a run, in order, took the state `(streaks[j], lasts[j])`
   * to `(streaks[j + 1], lasts[j + 1])` on `inputs[j]`, ending as
   * `outcomes[j]` (`TraceAt` reads off one cycle).
   */
  ghost predicate Trace(cfg: Config, inputs: seq<CycleInput>, outcomes: seq<CycleOutcome>,
                        streaks: seq<nat>, lasts: seq<int>)
    decreases |outcomes|
  {
    && |outcomes| <= |inputs|
    && |streaks| == |outcomes| + 1 && |lasts| == |outcomes| + 1
    && (|outcomes| > 0 ==>
          var n := |outcomes| - 1;
          && Trace(cfg, inputs, outcomes[..n], streaks[..n + 1], lasts[..n + 1])
          && CycleSpec(cfg, streaks[n], lasts[n], inputs[n], outcomes[n], streaks[n + 1], lasts[n + 1]))
  }

  lemma {:induction false} TraceAt(cfg: Config, inputs: seq<CycleInput>, outcomes: seq<CycleOutcome>,
                                   streaks: seq<nat>, lasts: seq<int>, j: nat)
    requires Trace(cfg, inputs, outcomes, streaks, lasts) && j < |outcomes|
    ensures CycleSpec(cfg, streaks[j], lasts[j], inputs[j], outcomes[j], streaks[j + 1], lasts[j + 1])
    decreases |outcomes|
  {
    var n := |outcomes| - 1;
    if j < n {
      TraceAt(cfg, inputs, outcomes[..n], streaks[..n + 1], lasts[..n + 1], j);
      assert outcomes[..n][j] == outcomes[j];
      assert streaks[..n + 1][j] == streaks[j] && streaks[..n + 1][j + 1] == streaks[j + 1];
      assert lasts[..n + 1][j] == lasts[j] && lasts[..n + 1][j + 1] == lasts[j + 1];
    }
  }

  lemma TraceStep(cfg: Config, inputs: seq<CycleInput>, outcomes: seq<CycleOutcome>,
                  streaks: seq<nat>, lasts: seq<int>, outcome: CycleOutcome, streak': nat, lastScale': int)
    requires Trace(cfg, inputs, outcomes, streaks, lasts) && |outcomes| < |inputs|
    requires CycleSpec(cfg, streaks[|outcomes|], lasts[|outcomes|], inputs[|outcomes|], outcome, streak', lastScale')
    ensures Trace(cfg, inputs, outcomes + [outcome], streaks + [streak'], lasts + [lastScale'])
  {
    var n := |outcomes|;
    var os, ss, ls := outcomes + [outcome], streaks + [streak'], lasts + [lastScale'];
    assert os[..n] == outcomes && ss[..n + 1] == streaks && ls[..n + 1] == lasts;
    assert os[n] == outcome && ss[n] == streaks[n] && ls[n] == lasts[n];
    assert ss[n + 1] == streak' && ls[n + 1] == lastScale';
  }

  /** A cycle that changed the pool: `scale_workers` ran and reported a change. */
  predicate Changed(outcome: CycleOutcome)
  {
    outcome.Acted? && outcome.scale.Scaled? && outcome.scale.changed
  }

  /**
   * A cycle updates the streak from its backlog, and moves the last scale
   * time to its clock reading when it changed the pool and only then.
   */
  lemma CycleEffect(cfg: Config, streak: nat, lastScale: int, input: CycleInput,
                    outcome: CycleOutcome, streak': nat, lastScale': int)
    requires CycleSpec(cfg, streak, lastScale, input, outcome, streak', lastScale')
    ensures streak' == NextStreak(cfg, streak, QueueLength(input.fetch))
    ensures lastScale' == if Changed(outcome) then input.now else lastScale
  {
  }

  /**
   * The last scale time is the clock reading of the latest cycle that
   * changed the pool, or the initial one when no cycle did.
   */
  ghost predicate LatestChange(lastScale: int, initial: int, inputs: seq<CycleInput>, outcomes: seq<CycleOutcome>)
  {
    || (lastScale == initial && NoChangeAfter(outcomes, 0))
    || exists j :: 0 <= j < |outcomes| && j < |inputs| && Changed(outcomes[j]) && lastScale == inputs[j].now &&
         NoChangeAfter(outcomes, j + 1)
  }

  /** No cycle from `from` on changed the pool. */
  predicate NoChangeAfter(outcomes: seq<CycleOutcome>, from: nat)
  {
    forall k :: from <= k < |outcomes| ==> !Changed(outcomes[k])
  }

  lemma LatestChangeStep(before: int, after: int, initial: int, inputs: seq<CycleInput>,
                         outcomes: seq<CycleOutcome>, outcome: CycleOutcome)
    requires |outcomes| < |inputs|
    requires LatestChange(before, initial, inputs, outcomes)
    requires after == if Changed(outcome) then inputs[|outcomes|].now else before
    ensures LatestChange(after, initial, inputs, outcomes + [outcome])
  {
    var extended := outcomes + [outcome];
    if Changed(outcome) {
      assert extended[|outcomes|] == outcome;
      assert NoChangeAfter(extended, |outcomes| + 1);
    } else if before == initial && NoChangeAfter(outcomes, 0) {
      assert NoChangeAfter(extended, 0) by {
        forall k | 0 <= k < |extended| ensures !Changed(extended[k]) {
          if k < |outcomes| { assert extended[k] == outcomes[k]; }
        }
      }
    } else {
      var j :| 0 <= j < |outcomes| && j < |inputs| && Changed(outcomes[j]) && before == inputs[j].now &&
        NoChangeAfter(outcomes, j + 1);
      assert extended[j] == outcomes[j];
      assert NoChangeAfter(extended, j + 1) by {
        forall k | j + 1 <= k < |extended| ensures !Changed(extended[k]) {
          if k < |outcomes| { assert extended[k] == outcomes[k]; }
        }
      }
    }
  }

  lemma StreakStep(cfg: Config, streak: nat, inputs: seq<CycleInput>, i: nat)
    requires i < |inputs|
    ensures StreakAfter(cfg, streak, Backlogs(inputs[..i + 1]))
         == NextStreak(cfg, StreakAfter(cfg, streak, Backlogs(inputs[..i])), QueueLength(inputs[i].fetch))
  {
    var qs := Backlogs(inputs[..i + 1]);
    assert inputs[..i + 1][..i] == inputs[..i];
    assert qs[..i] == Backlogs(inputs[..i]);
  }

  /**
   * The cooldown starts only on a change: a cycle that acted but changed
   * nothing leaves the last scale time where it was, so the next cycle may
   * act again.
   */
  lemma UnchangedActionKeepsCooldownOpen(cfg: Config, streak: nat, lastScale: int, input: CycleInput,
                                         outcome: CycleOutcome, streak': nat, lastScale': int)
    requires CycleSpec(cfg, streak, lastScale, input, outcome, streak', lastScale')
    requires outcome.Acted? && outcome.scale.Scaled? && !outcome.scale.changed
    ensures lastScale' == lastScale
  {
  }

  /**
   * No two changes fall within one cooldown period: a cycle that changes
   * the pool happens at least `COOLDOWN_PERIOD` after the last change.
   */
  lemma ChangesAreCooldownApart(cfg: Config, streak: nat, lastScale: int, input: CycleInput,
                                outcome: CycleOutcome, streak': nat, lastScale': int)
    requires CycleSpec(cfg, streak, lastScale, input, outcome, streak', lastScale')
    requires lastScale' != lastScale
    ensures outcome.Acted? && input.now - lastScale >= cfg.cooldownPeriod && lastScale' == input.now
  {
  }
}
