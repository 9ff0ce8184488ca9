/**
 * The autoscaler's decision for one poll cycle: from the number of running
 * workers, the queue backlog and the low-backlog streak, the number of
 * workers it wants. Pure arithmetic; the loop that feeds it lives in
 * ControlLoop.
 */
module ScalingPolicy {

  /** The settings read from the environment at start-up (all plain integers there). */
  datatype Config = Config(
    minContainers: int,
    maxContainers: int,
    scaleUpThreshold: int,
    scaleDownThreshold: int,
    pollInterval: int,
    cooldownPeriod: int,
    messagesPerWorker: int,
    stopTimeout: int,
    workerPrefix: string)

  /** The values used when no variable is set. */
  const Defaults: Config := Config(1, 10, 100, 10, 10, 30, 200, 60, "worker")

  /** How many low-backlog cycles in a row the third rule waits for. */
  const SustainedLowCycles: nat := 3

  function Max(a: int, b: int): int { if a >= b then a else b }
  function Min(a: int, b: int): int { if a <= b then a else b }

  /** `SAFE_MPW = max(1, MESSAGES_PER_WORKER)`: a divisor that is always usable. */
  function SafeMpw(cfg: Config): (m: int)
    ensures m >= 1
    ensures m >= cfg.messagesPerWorker
    ensures m == cfg.messagesPerWorker || m == 1
  {
    Max(1, cfg.messagesPerWorker)
  }

  /** `math.ceil(a / b)` on integers: the least multiple count of `b` that covers `a`. */
  function CeilDiv(a: int, b: int): (q: int)
    requires b >= 1
    ensures (q - 1) * b < a <= q * b
  {
    var f := (-a) / b;
    assert -a == f * b + (-a) % b;
    -f
  }

  lemma CeilDivMonotone(a: int, a': int, b: int)
    requires b >= 1 && a <= a'
    ensures CeilDiv(a, b) <= CeilDiv(a', b)
  {
    var q, q' := CeilDiv(a, b), CeilDiv(a', b);
    if q > q' {
      assert (q - 1) * b >= q' * b by {
        assert q - 1 >= q';
        MultiplyMonotone(q', q - 1, b);
      }
      assert false;
    }
  }

  lemma MultiplyMonotone(x: int, y: int, b: int)
    requires x <= y && b >= 0
    ensures x * b <= y * b
  {
    assert y * b - x * b == (y - x) * b;
  }

  lemma CeilDivZero(b: int)
    requires b >= 1
    ensures CeilDiv(0, b) == 0
  {
    var q := CeilDiv(0, b);
    if q >= 1 {
      MultiplyMonotone(0, q - 1, b);
    } else if q <= -1 {
      MultiplyMonotone(q, -1, b);
    }
  }

  /**
   * Lines 263-266: the streak grows by one on a cycle whose backlog is at or
   * below the scale-down threshold, and is reset otherwise.
   */
  function NextStreak(cfg: Config, streak: nat, queueLength: int): nat
  {
    if queueLength <= cfg.scaleDownThreshold then streak + 1 else 0
  }

  /** Which branch of the `if`/`elif` chain at lines 272-277 sets the desired count. */
  datatype Rule = Baseline | ScaleUp | ScaleDown | SustainedLow

  function FiringRule(cfg: Config, current: int, queueLength: int, streak: nat): Rule
  {
    if queueLength >= cfg.scaleUpThreshold && current < cfg.maxContainers then ScaleUp
    else if queueLength <= cfg.scaleDownThreshold && current > cfg.minContainers then ScaleDown
    else if streak >= SustainedLowCycles && current > cfg.minContainers then SustainedLow
    else Baseline
  }

  /** The workers the backlog calls for, one per `SAFE_MPW` messages, rounded up. */
  function Needed(cfg: Config, queueLength: int): int
  {
    CeilDiv(queueLength, SafeMpw(cfg))
  }

  /** `desired_count` after lines 270-277. */
  function DesiredCount(cfg: Config, current: int, queueLength: int, streak: nat): (desired: int)
    ensures desired >= cfg.minContainers || (cfg.minContainers > cfg.maxContainers && desired == cfg.maxContainers)
    ensures FiringRule(cfg, current, queueLength, streak) == Baseline ==> desired >= current
  {
    match FiringRule(cfg, current, queueLength, streak)
    case Baseline => Max(current, cfg.minContainers)
    case ScaleUp => Min(cfg.maxContainers, Max(cfg.minContainers, Needed(cfg, queueLength)))
    case ScaleDown => Max(cfg.minContainers, Needed(cfg, queueLength))
    case SustainedLow => Max(cfg.minContainers, Needed(cfg, queueLength))
  }

  /** A positive streak after the update means this cycle's backlog is low. */
  lemma StreakPositiveIffLow(cfg: Config, streak: nat, queueLength: int)
    ensures NextStreak(cfg, streak, queueLength) > 0 <==> queueLength <= cfg.scaleDownThreshold
  {
  }

  /**
   * The sustained-low branch (line 276) is dead: with the streak updated
   * from the same backlog, whenever its guard holds the line-274 guard holds
   * too, and that branch comes first.
   */
  lemma SustainedLowNeverFires(cfg: Config, streak: nat, current: int, queueLength: int)
    ensures FiringRule(cfg, current, queueLength, NextStreak(cfg, streak, queueLength)) != SustainedLow
  {
    StreakPositiveIffLow(cfg, streak, queueLength);
  }

  /** Hence the streak never influences the decision: the result is the one a zero streak gives. */
  lemma DesiredIgnoresStreak(cfg: Config, streak: nat, current: int, queueLength: int)
    ensures DesiredCount(cfg, current, queueLength, NextStreak(cfg, streak, queueLength))
         == DesiredCount(cfg, current, queueLength, 0)
  {
    SustainedLowNeverFires(cfg, streak, current, queueLength);
  }

  /** The branch would fire with a streak that did not come from this cycle's backlog. */
  lemma SustainedLowNeedsStaleStreak()
    ensures FiringRule(Defaults, 3, 50, 3) == SustainedLow
  {
  }

  /**
   * Bounds. With `MIN <= MAX` and at most `MAX` workers running, the desired
   * count is at least `MIN`; it is at most `MAX` unless the scale-down
   * branch fires, which does not clamp to `MAX`.
   */
  lemma DesiredBounds(cfg: Config, current: int, queueLength: int, streak: nat)
    requires cfg.minContainers <= cfg.maxContainers && current <= cfg.maxContainers
    ensures cfg.minContainers <= DesiredCount(cfg, current, queueLength, streak)
    ensures FiringRule(cfg, current, queueLength, streak) in {Baseline, ScaleUp}
        ==> DesiredCount(cfg, current, queueLength, streak) <= cfg.maxContainers
  {
  }

  /**
   * The scale-down branch stays within `MAX` when the scale-down threshold
   * needs no more than `MAX` workers, which holds for the defaults.
   */
  lemma DesiredWithinBounds(cfg: Config, current: int, queueLength: int, streak: nat)
    requires cfg.minContainers <= cfg.maxContainers && current <= cfg.maxContainers
    requires Needed(cfg, cfg.scaleDownThreshold) <= cfg.maxContainers
    ensures var d := DesiredCount(cfg, current, queueLength, NextStreak(cfg, streak, queueLength));
      cfg.minContainers <= d <= cfg.maxContainers
  {
    var s := NextStreak(cfg, streak, queueLength);
    SustainedLowNeverFires(cfg, streak, current, queueLength);
    if FiringRule(cfg, current, queueLength, s) == ScaleDown {
      CeilDivMonotone(queueLength, cfg.scaleDownThreshold, SafeMpw(cfg));
    }
  }

  /** Without that condition the scale-down branch can ask for more than `MAX` workers. */
  lemma ScaleDownCanExceedMax()
    ensures var cfg := Defaults.(maxContainers := 2, messagesPerWorker := 1);
      DesiredCount(cfg, 2, 10, 1) == 10
  {
    var cfg := Defaults.(maxContainers := 2, messagesPerWorker := 1);
    assert FiringRule(cfg, 2, 10, 1) == ScaleDown;
    assert CeilDiv(10, 1) == 10;
  }

  /**
   * What the two backlog branches are for: the count they ask for serves the
   * backlog at `SAFE_MPW` messages per worker, unless scale-up hit `MAX`;
   * and it is no larger than needed, unless `MIN` or `MAX` forces it.
   */
  lemma BacklogBranchesServeQueue(cfg: Config, current: int, queueLength: int, streak: nat)
    requires FiringRule(cfg, current, queueLength, streak) in {ScaleUp, ScaleDown}
    ensures var d, b := DesiredCount(cfg, current, queueLength, streak), SafeMpw(cfg);
      && (queueLength <= d * b || (FiringRule(cfg, current, queueLength, streak) == ScaleUp && d == cfg.maxContainers))
      && (d == cfg.minContainers || d == cfg.maxContainers || (d - 1) * b < queueLength)
  {
    var d, b, n := DesiredCount(cfg, current, queueLength, streak), SafeMpw(cfg), Needed(cfg, queueLength);
    if d != cfg.maxContainers || FiringRule(cfg, current, queueLength, streak) == ScaleDown {
      assert n <= d;
      MultiplyMonotone(n, d, b);
    }
  }

  /** The scale-up branch can shrink the pool: a backlog at the threshold needs a single worker by default. */
  lemma ScaleUpCanShrink()
    ensures FiringRule(Defaults, 5, 150, 0) == ScaleUp && DesiredCount(Defaults, 5, 150, 0) == 1
  {
    assert CeilDiv(150, 200) == 1 by {
      var q := CeilDiv(150, 200);
      if q >= 2 { MultiplyMonotone(1, q - 1, 200); }
      if q <= 0 { MultiplyMonotone(q, 0, 200); }
    }
  }

  /**
   * An empty queue brings a pool above `MIN` straight down to `MIN` in one
   * cycle (through the line-274 branch, or the scale-up branch when its
   * threshold is not positive), whatever the streak.
   */
  lemma EmptyQueueGoesToMin(cfg: Config, current: int, streak: nat)
    requires 0 <= cfg.minContainers <= cfg.maxContainers && cfg.scaleDownThreshold >= 0
    requires current > cfg.minContainers
    ensures DesiredCount(cfg, current, 0, streak) == cfg.minContainers
  {
    CeilDivZero(SafeMpw(cfg));
  }
}
