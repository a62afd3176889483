/**
 * The learning-rate schedule. Each epoch starts from
 * `basic_lr * world_size * batch_size * lr_decay_rate ^ k`, where `k` is the
 * number of decay stages <= the epoch. During epoch 0, while the step is below
 * `warm_iters`, a linear warmup overrides it. The optimizer's parameter groups
 * are an array of rates that the two methods below overwrite in place. Rates
 * are exact reals here, with no floating-point rounding.
 */
module Schedule {
  import opened Bisect
  import opened Config

  /** `b ** k` for a non-negative integer exponent. */
  function Pow(b: real, k: nat): real {
    if k == 0 then 1.0 else b * Pow(b, k - 1)
  }

  /** `bisect_right(lr_decay_stages, epoch)`. */
  function DecayExponent(cfg: RunConfig, epoch: int): (k: nat)
    ensures k <= |cfg.lrDecayStages|
  {
    BisectSearch(cfg.lrDecayStages, epoch as real)
  }

  /** On sorted stages the exponent is the number of stages <= the epoch. */
  lemma DecayExponentCounts(cfg: RunConfig, epoch: int)
    requires Sorted(cfg.lrDecayStages)
    ensures DecayExponent(cfg, epoch) == CountLe(cfg.lrDecayStages, epoch as real)
  {
    BisectSearchSplits(cfg.lrDecayStages, epoch as real);
  }

  /** The rate before any decay: `basic_lr * world_size * batch_size`. */
  function BaseRate(cfg: RunConfig, worldSize: int, batchSize: int): real {
    cfg.basicLr * (worldSize as real) * (batchSize as real)
  }

  /** Non-negative factors give a non-negative undecayed rate; no devices or no images per batch give 0. */
  lemma BaseRateNonNegative(cfg: RunConfig, worldSize: int, batchSize: int)
    ensures 0.0 <= cfg.basicLr && 0 <= worldSize && 0 <= batchSize ==> 0.0 <= BaseRate(cfg, worldSize, batchSize)
    ensures worldSize == 0 || batchSize == 0 ==> BaseRate(cfg, worldSize, batchSize) == 0.0
  {
    ScaleDownNonNeg(cfg.basicLr, worldSize as real);
    ScaleDownNonNeg(cfg.basicLr * (worldSize as real), batchSize as real);
  }

  /**
   * The rate every parameter group is given at the top of an epoch. Before
   * the first passed stage it is the undecayed rate; with a decay factor in
   * [0, 1] it never exceeds a non-negative undecayed rate.
   */
  function EpochRate(cfg: RunConfig, worldSize: int, batchSize: int, epoch: int): (r: real)
    ensures DecayExponent(cfg, epoch) == 0 ==> r == BaseRate(cfg, worldSize, batchSize)
    ensures 0.0 <= cfg.lrDecayRate <= 1.0 && 0.0 <= BaseRate(cfg, worldSize, batchSize) ==>
      0.0 <= r <= BaseRate(cfg, worldSize, batchSize)
  {
    var c, k := BaseRate(cfg, worldSize, batchSize), DecayExponent(cfg, epoch);
    ScaledPowBound(c, cfg.lrDecayRate, k);
    c * Pow(cfg.lrDecayRate, k)
  }

  /**
   * A non-negative amount scaled by a power of a factor in [0, 1] stays in
   * [0, amount]; the zeroth power leaves it as it is.
   */
  lemma ScaledPowBound(c: real, b: real, k: nat)
    ensures k == 0 ==> c * Pow(b, k) == c
    ensures 0.0 <= b <= 1.0 && 0.0 <= c ==> 0.0 <= c * Pow(b, k) <= c
  {
    if 0.0 <= b <= 1.0 && 0.0 <= c {
      var p := Pow(b, k);
      PowInUnit(b, k);
      ScaleDown(p, c);
      assert c * p == p * c;
    }
  }

  /**
   * Warmup applies in epoch 0 only, while the step is below `warm_iters`; a
   * step in warmup implies a positive `warm_iters`, the ramp's divisor.
   */
  function InWarmup(cfg: RunConfig, epoch: int, step: int): (w: bool)
    ensures epoch != 0 ==> !w
    ensures w && 0 <= step ==> 0 < cfg.warmIters
  {
    epoch == 0 && step < cfg.warmIters
  }

  /**
   * `base_lr * (step + 1.0) / warm_iters`; in warmup `warm_iters` is positive,
   * so there is no division by zero. The ramp reaches the base rate at step
   * `warm_iters - 1`, and a positive base is approached strictly from below.
   */
  function WarmupRate(base: real, step: nat, warmIters: int): (r: real)
    requires step < warmIters
    ensures step == warmIters - 1 ==> r == base
    ensures base > 0.0 ==> 0.0 < r <= base
    ensures base > 0.0 && step < warmIters - 1 ==> r < base
  {
    RampFacts(base, step, warmIters);
    base * ((step as real + 1.0) / (warmIters as real))
  }

  lemma RampFacts(base: real, step: nat, warmIters: int)
    requires step < warmIters
    ensures var r := base * ((step as real + 1.0) / (warmIters as real));
      && (step == warmIters - 1 ==> r == base)
      && (base > 0.0 ==> 0.0 < r <= base)
      && (base > 0.0 && step < warmIters - 1 ==> r < base)
  {
    var a, w := step as real + 1.0, warmIters as real;
    assert 0.0 < a <= w;
    assert a == w <==> step == warmIters - 1;
    RatioFacts(a, w);
    ScaleFacts(base, a / w);
  }

  lemma RatioFacts(a: real, w: real)
    requires 0.0 < a <= w
    ensures 0.0 < a / w <= 1.0
    ensures a < w ==> a / w < 1.0
    ensures a == w ==> a / w == 1.0
  {
    var f := a / w;
    assert f * w == a;
  }

  lemma ScaleFacts(base: real, f: real)
    requires 0.0 < f <= 1.0
    ensures f == 1.0 ==> base * f == base
    ensures base > 0.0 ==> 0.0 < base * f <= base
    ensures base > 0.0 && f < 1.0 ==> base * f < base
  {
    assert base - base * f == base * (1.0 - f);
  }


  /**
   * The rate in effect at `step` of `epoch`, once `adjust_learning_rate` has
   * run: the epoch rate from step `warm_iters - 1` on and after epoch 0, and
   * never above a positive epoch rate.
   */
  function ScheduledRate(cfg: RunConfig, worldSize: int, batchSize: int, epoch: int, step: nat): (r: real)
    ensures epoch != 0 || step >= cfg.warmIters - 1 ==> r == EpochRate(cfg, worldSize, batchSize, epoch)
    ensures EpochRate(cfg, worldSize, batchSize, epoch) > 0.0 ==> 0.0 < r <= EpochRate(cfg, worldSize, batchSize, epoch)
  {
    if InWarmup(cfg, epoch, step) then
      WarmupRate(EpochRate(cfg, worldSize, batchSize, epoch), step, cfg.warmIters)
    else
      EpochRate(cfg, worldSize, batchSize, epoch)
  }

  /** The decay exponent never decreases as the epochs go by. */
  lemma DecayExponentMonotone(cfg: RunConfig, e1: int, e2: int)
    requires Sorted(cfg.lrDecayStages)
    requires e1 <= e2
    ensures DecayExponent(cfg, e1) <= DecayExponent(cfg, e2)
  {
    DecayExponentCounts(cfg, e1);
    DecayExponentCounts(cfg, e2);
    CountLeMonotone(cfg.lrDecayStages, e1 as real, e2 as real);
  }

  /**
   * Stage `i` is counted as passed exactly when it is <= the epoch, so a stage
   * equal to the epoch already decays that epoch's rate.
   */
  lemma StagePassed(cfg: RunConfig, epoch: int, i: nat)
    requires Sorted(cfg.lrDecayStages)
    requires i < |cfg.lrDecayStages|
    ensures DecayExponent(cfg, epoch) > i <==> cfg.lrDecayStages[i] <= epoch as real
  {
    DecayExponentCounts(cfg, epoch);
    CountLeExceedsIndex(cfg.lrDecayStages, epoch as real, i);
  }

  /** Powers of a factor in [0, 1] are in [0, 1] and shrink as the exponent grows. */
  lemma {:induction false} PowNonIncreasing(b: real, k1: nat, k2: nat)
    requires 0.0 <= b <= 1.0
    requires k1 <= k2
    ensures 0.0 <= Pow(b, k2) <= Pow(b, k1) <= 1.0
    decreases k2 - k1
  {
    PowInUnit(b, k1);
    PowInUnit(b, k2);
    if k1 < k2 {
      PowNonIncreasing(b, k1, k2 - 1);
      var p := Pow(b, k2 - 1);
      assert Pow(b, k2) == b * p;
      ScaleDown(b, p);
    }
  }

  lemma {:induction false} PowInUnit(b: real, k: nat)
    requires 0.0 <= b <= 1.0
    ensures 0.0 <= Pow(b, k) <= 1.0
  {
    if k > 0 {
      PowInUnit(b, k - 1);
      var p := Pow(b, k - 1);
      assert Pow(b, k) == b * p;
      ScaleDown(b, p);
    }
  }

  lemma ScaleDown(b: real, p: real)
    requires 0.0 <= b <= 1.0 && 0.0 <= p
    ensures 0.0 <= b * p <= p
  {
    assert p - b * p == (1.0 - b) * p;
  }

  /** With a decay factor in [0, 1] and a non-negative base, later epochs never get a larger rate. */
  lemma EpochRateNonIncreasing(cfg: RunConfig, worldSize: int, batchSize: int, e1: int, e2: int)
    requires Sorted(cfg.lrDecayStages)
    requires 0.0 <= cfg.lrDecayRate <= 1.0
    requires 0.0 <= cfg.basicLr && 0 <= worldSize && 0 <= batchSize
    requires e1 <= e2
    ensures 0.0 <= EpochRate(cfg, worldSize, batchSize, e2) <= EpochRate(cfg, worldSize, batchSize, e1)
  {
    DecayExponentMonotone(cfg, e1, e2);
    var k1, k2 := DecayExponent(cfg, e1), DecayExponent(cfg, e2);
    var c := BaseRate(cfg, worldSize, batchSize);
    BaseRateNonNegative(cfg, worldSize, batchSize);
    ScaledRatesOrdered(c, cfg.lrDecayRate, k1, k2,
      EpochRate(cfg, worldSize, batchSize, e1), EpochRate(cfg, worldSize, batchSize, e2));
  }

  lemma ScaledRatesOrdered(c: real, b: real, k1: nat, k2: nat, r1: real, r2: real)
    requires 0.0 <= c && 0.0 <= b <= 1.0 && k1 <= k2
    requires r1 == c * Pow(b, k1) && r2 == c * Pow(b, k2)
    ensures 0.0 <= r2 <= r1
  {
    ScaledPowNonIncreasing(c, b, k1, k2);
  }

  lemma ScaledPowNonIncreasing(c: real, b: real, k1: nat, k2: nat)
    requires 0.0 <= c && 0.0 <= b <= 1.0 && k1 <= k2
    ensures 0.0 <= c * Pow(b, k2) <= c * Pow(b, k1)
  {
    PowNonIncreasing(b, k1, k2);
    PowInUnit(b, k2);
    ScaleDownNonNeg(c, Pow(b, k2));
    MulMonotone(c, Pow(b, k2), Pow(b, k1));
  }

  lemma ScaleDownNonNeg(x: real, y: real)
    ensures 0.0 <= x && 0.0 <= y ==> 0.0 <= x * y
  {
  }

  lemma MulMonotone(c: real, x: real, y: real)
    requires 0.0 <= c && x <= y
    ensures c * x <= c * y
  {
    assert c * y - c * x == c * (y - x);
    ScaleDownNonNeg(c, y - x);
  }

  /** The warmup rate strictly increases with the step. */
  lemma WarmupIncreasing(base: real, s1: nat, s2: nat, warmIters: int)
    requires base > 0.0
    requires s1 < s2 < warmIters
    ensures WarmupRate(base, s1, warmIters) < WarmupRate(base, s2, warmIters)
  {
    var w := warmIters as real;
    var f1, f2 := (s1 as real + 1.0) / w, (s2 as real + 1.0) / w;
    assert f1 * w == s1 as real + 1.0 && f2 * w == s2 as real + 1.0;
    assert f1 < f2;
    assert base * f1 < base * f2;
  }

  /** Decay stages [3, 6], factor 0.1, basic rate 0.01, one device, batch 1, no warmup. */
  lemma DecayExample()
    ensures var cfg := RunConfig(0.01, 0.1, [3.0, 6.0], 0, 8, 8, 1);
      && ScheduledRate(cfg, 1, 1, 2, 0) == 0.01
      && ScheduledRate(cfg, 1, 1, 3, 0) == 0.001
      && ScheduledRate(cfg, 1, 1, 7, 0) == 0.0001
  {
    var cfg := RunConfig(0.01, 0.1, [3.0, 6.0], 0, 8, 8, 1);
    assert Sorted(cfg.lrDecayStages);
    DecayExponentCounts(cfg, 2);
    DecayExponentCounts(cfg, 3);
    DecayExponentCounts(cfg, 7);
    CountLeOfPartition(cfg.lrDecayStages, 2.0, 0);
    CountLeOfPartition(cfg.lrDecayStages, 3.0, 1);
    CountLeOfPartition(cfg.lrDecayStages, 7.0, 2);
  }

  /**
   * The epoch-start assignment: every parameter group gets the epoch rate,
   * computed with `bisect_right` over the decay stages.
   */
  method SetEpochRate(groups: array<real>, cfg: RunConfig, worldSize: int, batchSize: int, epoch: int)
    modifies groups
    ensures forall i :: 0 <= i < groups.Length ==> groups[i] == EpochRate(cfg, worldSize, batchSize, epoch)
  {
    for i := 0 to groups.Length
      invariant forall j :: 0 <= j < i ==> groups[j] == EpochRate(cfg, worldSize, batchSize, epoch)
    {
      var k := BisectRight(cfg.lrDecayStages, epoch as real);
      groups[i] := BaseRate(cfg, worldSize, batchSize) * Pow(cfg.lrDecayRate, k);
    }
  }

  /**
   * `adjust_learning_rate`: in warmup every group gets the warmup rate;
   * otherwise no group changes.
   */
  method AdjustLearningRate(groups: array<real>, cfg: RunConfig, epoch: int, step: nat, worldSize: int, batchSize: int)
    modifies groups
    ensures InWarmup(cfg, epoch, step) ==>
      forall i :: 0 <= i < groups.Length ==>
        groups[i] == WarmupRate(EpochRate(cfg, worldSize, batchSize, epoch), step, cfg.warmIters)
    ensures !InWarmup(cfg, epoch, step) ==> groups[..] == old(groups[..])
  {
    var k := BisectRight(cfg.lrDecayStages, epoch as real);
    var baseLr := BaseRate(cfg, worldSize, batchSize) * Pow(cfg.lrDecayRate, k);
    if epoch == 0 && step < cfg.warmIters {
      var lrFactor := (step as real + 1.0) / (cfg.warmIters as real);
      for i := 0 to groups.Length
        invariant forall j :: 0 <= j < i ==> groups[j] == baseLr * lrFactor
      {
        groups[i] := baseLr * lrFactor;
      }
    }
  }
}
