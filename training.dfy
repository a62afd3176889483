/**
 * One worker's training run: for each epoch, set every parameter group to the
 * epoch rate, compute the number of steps, run the steps of the epoch and, on
 * rank 0, save a checkpoint. At each step the learning rate is adjusted
 * (warmup) and the two running meters are updated. On rank 0 the loss meter is
 * updated too, and at every `log_interval`-th step both meters are averaged,
 * logged and reset. The forward/backward/optimizer step, data loading and time
 * measurements are outside the model. What is observable is a trace of log
 * and checkpoint events, and the division by zero Python would raise.
 */
module Training {
  import opened Bisect
  import opened Config
  import opened Schedule
  import Naming

  datatype Event =
    /** A log line: the averages over `lossUpdates` loss and `timeUpdates` time records. */
    | Log(epoch: nat, step: nat, totSteps: int, lr: real, lossUpdates: nat, timeUpdates: nat)
    /** `{"epoch": epoch, "state_dict": ...}` saved to `path`. */
    | Checkpoint(path: string, epoch: nat)
    /** Python's ZeroDivisionError, which ends the worker. */
    | ZeroDivision

  function Abs(x: int): nat {
    if x < 0 then -x else x
  }

  // ----- integer arithmetic as Python does it -----

  /** Python's `a // b`, rounding toward minus infinity. */
  function FloorDiv(a: int, b: int): (q: int)
    requires b != 0
    ensures b > 0 ==> q * b <= a < (q + 1) * b
    ensures b < 0 ==> (q + 1) * b < a <= q * b
  {
    if b > 0 then a / b else (-a) / (-b)
  }

  /** Python's `a % b`: the remainder of `//`, with the sign of the divisor. */
  function PyMod(a: int, b: int): (r: int)
    requires b != 0
    ensures a == b * FloorDiv(a, b) + r
    ensures b > 0 ==> 0 <= r < b
    ensures b < 0 ==> b < r <= 0
  {
    a - b * FloorDiv(a, b)
  }

  /** Python's remainder is zero exactly when Dafny's is. */
  lemma PyModZero(a: int, b: int)
    requires b != 0
    ensures PyMod(a, b) == 0 <==> a % b == 0
  {
    ModZeroAbs(a, b);
    if b > 0 {
      if PyMod(a, b) == 0 {
        ModUnique(a, b, FloorDiv(a, b), 0);
      }
      if a % b == 0 {
        assert a == (a / b) * b;
        ModUnique(a, b, a / b, 0);
      }
    } else {
      var n := -b;
      if PyMod(a, b) == 0 {
        assert a == n * (-FloorDiv(a, b));
        ModUnique(a, n, -FloorDiv(a, b), 0);
      }
      if a % n == 0 {
        var k := a / n;
        assert a == k * n;
        assert -a == (-k) * n;
        assert FloorDiv(a, b) == (-a) / n;
        ModUnique(-a, n, -k, 0);
        assert (-a) / n == -k by {
          DivUnique(-a, n, -k);
        }
      }
    }
  }

  lemma DivUnique(a: int, n: int, q: int)
    requires n > 0 && a == q * n
    ensures a / n == q
  {
    ModUnique(a, n, q, 0);
    assert a == (a / n) * n + a % n;
    assert (a / n) * n == q * n;
  }

  /**
   * Python's `%` takes the sign of the divisor and Dafny's never is negative,
   * but both are zero exactly when the divisor divides the number.
   */
  lemma ModZeroAbs(s: int, b: int)
    requires b != 0
    ensures s % b == 0 <==> s % Abs(b) == 0
  {
    if b < 0 {
      if s % b == 0 {
        assert s == b * (s / b);
        assert s == Abs(b) * (-(s / b));
      }
      if s % Abs(b) == 0 {
        assert s == Abs(b) * (s / Abs(b));
        assert s == b * (-(s / Abs(b)));
      }
    }
  }

  lemma MulAtLeast(d: int, n: int)
    requires d >= 1 && n > 0
    ensures d * n >= n
  {
    assert d * n == (d - 1) * n + n;
    assert (d - 1) * n >= 0;
  }

  lemma ModUnique(a: int, n: int, q: int, r: int)
    requires n > 0 && a == q * n + r && 0 <= r < n
    ensures a % n == r
  {
    var q', r' := a / n, a % n;
    assert a == q' * n + r';
    assert q * n - q' * n == r' - r;
    assert (q - q') * n == q * n - q' * n;
    if q > q' {
      MulAtLeast(q - q', n);
    }
    if q < q' {
      MulAtLeast(q' - q, n);
    }
  }

  /** How the remainder moves from one step to the next. */
  lemma ModStep(s: int, n: int)
    requires n > 0 && s > 0
    ensures s % n == 0 ==> (s - 1) % n == n - 1
    ensures s % n != 0 ==> (s - 1) % n + 1 == s % n
  {
    var q, r := (s - 1) / n, (s - 1) % n;
    assert s - 1 == q * n + r;
    if r + 1 < n {
      ModUnique(s, n, q, r + 1);
    } else {
      assert (q + 1) * n == q * n + n;
      ModUnique(s, n, q + 1, 0);
    }
  }

  // ----- steps per epoch -----

  /**
   * `tot_steps = nr_images_epoch // (batch_size * world_size)`: with a
   * positive global batch, as many whole global batches as fit in the epoch's
   * images and no more.
   */
  function TotSteps(cfg: RunConfig, batchSize: int, worldSize: int): (t: int)
    requires batchSize * worldSize != 0
    ensures batchSize * worldSize > 0 ==>
      t * (batchSize * worldSize) <= cfg.nrImagesEpoch < (t + 1) * (batchSize * worldSize)
  {
    FloorDiv(cfg.nrImagesEpoch, batchSize * worldSize)
  }

  // ----- the events of one epoch -----

  /**
   * How many updates the meters hold when they are averaged at a logged step:
   * the update of step 0 alone, later the `|log_interval|` updates since the
   * previous log. Never zero, so `average()` never divides by zero.
   */
  function MeterCount(step: nat, logInterval: int): (n: nat)
    requires logInterval != 0
    ensures 1 <= n <= Abs(logInterval)
  {
    if step == 0 then 1 else Abs(logInterval)
  }

  /** The updates the meters hold at the start of `step`, on rank 0. */
  function PendingUpdates(step: nat, logInterval: int): nat
    requires logInterval != 0
  {
    if step == 0 then 0 else (step - 1) % Abs(logInterval)
  }

  /**
   * One step on rank 0: a logged step averages the pending updates plus its
   * own and leaves none pending; any other step adds its update to them.
   */
  lemma MeterStep(step: nat, logInterval: int)
    requires logInterval != 0
    ensures step % logInterval == 0 ==>
      PendingUpdates(step, logInterval) + 1 == MeterCount(step, logInterval)
      && PendingUpdates(step + 1, logInterval) == 0
    ensures step % logInterval != 0 ==>
      PendingUpdates(step, logInterval) + 1 == PendingUpdates(step + 1, logInterval)
  {
    var n := Abs(logInterval);
    ModZeroAbs(step, logInterval);
    assert MeterCount(step, logInterval) == if step == 0 then 1 else n;
    assert PendingUpdates(step + 1, logInterval) == step % n;
    if step > 0 {
      assert PendingUpdates(step, logInterval) == (step - 1) % n;
      ModStep(step, n);
    }
  }

  /** The log line rank 0 writes at `step`. */
  function LogAt(cfg: RunConfig, worldSize: int, batchSize: int, epoch: nat, totSteps: int, step: nat): (e: Event)
    requires cfg.logInterval != 0
    ensures e.Log? && e.epoch == epoch && e.step == step && e.totSteps == totSteps
    ensures e.lr == ScheduledRate(cfg, worldSize, batchSize, epoch, step)
    ensures 1 <= e.lossUpdates == e.timeUpdates <= Abs(cfg.logInterval)
  {
    var n := MeterCount(step, cfg.logInterval);
    Log(epoch, step, totSteps, ScheduledRate(cfg, worldSize, batchSize, epoch, step), n, n)
  }

  /** The log lines of steps 0 .. n - 1, in order. */
  function LogsBelow(cfg: RunConfig, worldSize: int, batchSize: int, epoch: nat, totSteps: int, n: nat): (t: seq<Event>)
    requires cfg.logInterval != 0
    ensures |t| <= n
    ensures n > 0 ==> |t| > 0
    ensures forall i :: 0 <= i < |t| ==> t[i].Log?
  {
    if n == 0 then []
    else
      LogsBelow(cfg, worldSize, batchSize, epoch, totSteps, n - 1)
        + if (n - 1) % cfg.logInterval == 0 then [LogAt(cfg, worldSize, batchSize, epoch, totSteps, n - 1)] else []
  }

  /** Rank 0 with a zero log interval fails at the first step. */
  predicate EpochFails(cfg: RunConfig, rank: int, totSteps: int) {
    rank == 0 && totSteps > 0 && cfg.logInterval == 0
  }

  /** The events of one call of `train_one_epoch`. */
  function EpochTrace(cfg: RunConfig, worldSize: int, batchSize: int, rank: int, epoch: nat, totSteps: int): (t: seq<Event>)
    ensures t != [] <==> rank == 0 && totSteps > 0
    ensures |t| <= if totSteps > 0 then totSteps else 0
    ensures t == [ZeroDivision] <==> EpochFails(cfg, rank, totSteps)
  {
    if rank != 0 || totSteps <= 0 then []
    else if cfg.logInterval == 0 then [ZeroDivision]
    else
      var logs := LogsBelow(cfg, worldSize, batchSize, epoch, totSteps, totSteps);
      assert logs[0].Log?;
      logs
  }

  /** The number of steps one call of `train_one_epoch` runs, the failing one included. */
  function StepsRun(cfg: RunConfig, rank: int, totSteps: int): nat {
    if totSteps <= 0 then 0 else if EpochFails(cfg, rank, totSteps) then 1 else totSteps
  }

  /** The rate the parameter groups hold after `steps` steps of the epoch. */
  function RateAfter(cfg: RunConfig, worldSize: int, batchSize: int, epoch: nat, steps: nat): real {
    if steps == 0 then EpochRate(cfg, worldSize, batchSize, epoch)
    else ScheduledRate(cfg, worldSize, batchSize, epoch, steps - 1)
  }

  /** Outside warmup the groups already hold the epoch rate, so leaving them is right. */
  lemma RateSettled(cfg: RunConfig, worldSize: int, batchSize: int, epoch: nat, step: nat)
    requires !InWarmup(cfg, epoch, step)
    ensures RateAfter(cfg, worldSize, batchSize, epoch, step) == ScheduledRate(cfg, worldSize, batchSize, epoch, step)
  {

  }

  /**
   * `train_one_epoch`, entered with every parameter group at the epoch rate.
   * `lossUpdates` and `timeUpdates` count the updates the two meters hold
   * since their last reset.
   */
  method TrainOneEpoch(groups: array<real>, cfg: RunConfig, totSteps: int, rank: int, epoch: nat, worldSize: int, batchSize: int)
    returns (trace: seq<Event>, failed: bool)
    requires groups.Length > 0
    requires forall i :: 0 <= i < groups.Length ==> groups[i] == EpochRate(cfg, worldSize, batchSize, epoch)
    modifies groups
    ensures trace == EpochTrace(cfg, worldSize, batchSize, rank, epoch, totSteps)
    ensures failed == EpochFails(cfg, rank, totSteps)
    ensures forall i :: 0 <= i < groups.Length ==>
      groups[i] == RateAfter(cfg, worldSize, batchSize, epoch, StepsRun(cfg, rank, totSteps))
  {
    var lossUpdates, timeUpdates := 0, 0;
    trace, failed := [], false;
    var step: nat := 0;
    while step < totSteps
      invariant step <= if totSteps > 0 then totSteps else 0
      invariant forall i :: 0 <= i < groups.Length ==> groups[i] == RateAfter(cfg, worldSize, batchSize, epoch, step)
      invariant rank == 0 && cfg.logInterval != 0 ==>
        && trace == LogsBelow(cfg, worldSize, batchSize, epoch, totSteps, step)
        && lossUpdates == timeUpdates == PendingUpdates(step, cfg.logInterval)
      invariant rank == 0 && cfg.logInterval == 0 ==> step == 0 && trace == []
      invariant rank != 0 ==> trace == [] && lossUpdates == 0 && timeUpdates == step
    {
      AdjustLearningRate(groups, cfg, epoch, step, worldSize, batchSize);
      if !InWarmup(cfg, epoch, step) {
        RateSettled(cfg, worldSize, batchSize, epoch, step);
      }
      // loading the batch, the model step and its timing are outside the model
      timeUpdates := timeUpdates + 1;
      if rank == 0 {
        lossUpdates := lossUpdates + 1;
        if cfg.logInterval == 0 {
          // `step % log_interval` raises
          trace, failed := trace + [ZeroDivision], true;
          return;
        }
        MeterStep(step, cfg.logInterval);
        PyModZero(step, cfg.logInterval);
        if PyMod(step, cfg.logInterval) == 0 {
          trace := trace + [Log(epoch, step, totSteps, groups[0], lossUpdates, timeUpdates)];
          lossUpdates, timeUpdates := 0, 0;
        }
      }
      step := step + 1;
    }
  }

  // ----- the worker's epochs -----

  /** The checkpoint rank 0 saves after epoch `epoch`; other ranks save none. */
  function SavedBy(rank: int, file: string, epoch: nat): (t: seq<Event>)
    ensures t != [] <==> rank == 0
    ensures forall i :: 0 <= i < |t| ==> t[i] == Checkpoint(Naming.CheckpointPath(file, epoch), epoch)
  {
    if rank == 0 then [Checkpoint(Naming.CheckpointPath(file, epoch), epoch)] else []
  }

  /**
   * The events of epochs 0 .. n - 1 when none fails. Rank 0 saves once per
   * epoch and, with at least one step, also logs at least once per epoch.
   */
  function EpochsBelow(cfg: RunConfig, rank: int, worldSize: int, batchSize: int, file: string, totSteps: int, n: nat): (t: seq<Event>)
    ensures rank == 0 ==> n <= |t|
    ensures rank == 0 && totSteps > 0 ==> 2 * n <= |t|
  {
    if n == 0 then []
    else
      EpochsBelow(cfg, rank, worldSize, batchSize, file, totSteps, n - 1)
        + (EpochTrace(cfg, worldSize, batchSize, rank, n - 1, totSteps) + SavedBy(rank, file, n - 1))
  }

  /** All events of `worker(rank, world_size, args)` from its epoch loop on. */
  function WorkerTrace(cfg: RunConfig, rank: int, worldSize: int, batchSize: int, file: string): (t: seq<Event>)
    ensures rank != 0 ==> t == [] || t == [ZeroDivision]
    ensures cfg.maxEpoch > 0 && batchSize * worldSize == 0 ==> t == [ZeroDivision]
  {
    OtherRanksSilentFrom(cfg, rank, worldSize, batchSize, file);
    if cfg.maxEpoch <= 0 then []
    else if batchSize * worldSize == 0 then [ZeroDivision]
    else if EpochFails(cfg, rank, TotSteps(cfg, batchSize, worldSize)) then [ZeroDivision]
    else EpochsBelow(cfg, rank, worldSize, batchSize, file, TotSteps(cfg, batchSize, worldSize), cfg.maxEpoch)
  }

  /**
   * The epoch loop of `worker`: each epoch sets the epoch rate, computes
   * `tot_steps`, trains and, on rank 0, saves `log-of-<stem>/epoch_<epoch>.pkl`.
   */
  method Worker(nrGroups: nat, cfg: RunConfig, rank: int, worldSize: int, batchSize: int, file: string)
    returns (trace: seq<Event>)
    requires nrGroups > 0
    ensures trace == WorkerTrace(cfg, rank, worldSize, batchSize, file)
  {
    // the worker's own optimizer: `nrGroups` parameter groups, built at the undecayed rate
    var groups := new real[nrGroups](_ => BaseRate(cfg, worldSize, batchSize));
    trace := [];
    var epoch: nat := 0;
    while epoch < cfg.maxEpoch
      invariant epoch <= if cfg.maxEpoch > 0 then cfg.maxEpoch else 0
      invariant epoch > 0 ==> batchSize * worldSize != 0 && !EpochFails(cfg, rank, TotSteps(cfg, batchSize, worldSize))
      invariant epoch > 0 ==> trace == EpochsBelow(cfg, rank, worldSize, batchSize, file, TotSteps(cfg, batchSize, worldSize), epoch)
      invariant epoch == 0 ==> trace == []
    {
      SetEpochRate(groups, cfg, worldSize, batchSize, epoch);
      if batchSize * worldSize == 0 {
        // `nr_images_epoch // 0` raises
        trace := trace + [ZeroDivision];
        return;
      }
      var totSteps := FloorDiv(cfg.nrImagesEpoch, batchSize * worldSize);
      var epochTrace, failed := TrainOneEpoch(groups, cfg, totSteps, rank, epoch, worldSize, batchSize);
      if failed {
        trace := trace + epochTrace;
        return;
      }
      var saved: seq<Event> := [];
      if rank == 0 {
        saved := [Checkpoint(Naming.CheckpointPath(file, epoch), epoch)];
      }
      trace := trace + (epochTrace + saved);
      epoch := epoch + 1;
    }
  }

  // ----- what the traces promise -----

  /** Every event of `t` is the log line of a step below n that is a multiple of the interval. */
  ghost predicate LogLinesBelow(cfg: RunConfig, worldSize: int, batchSize: int, epoch: nat, totSteps: int, t: seq<Event>, n: nat)
    requires cfg.logInterval != 0
  {
    forall k :: 0 <= k < |t| ==>
      && t[k].Log? && t[k].step < n && t[k].step % cfg.logInterval == 0
      && t[k] == LogAt(cfg, worldSize, batchSize, epoch, totSteps, t[k].step)
  }

  /** The log lines of `t` are in strictly increasing step order. */
  ghost predicate InStepOrder(t: seq<Event>) {
    forall k1, k2 :: 0 <= k1 < k2 < |t| && t[k1].Log? && t[k2].Log? ==> t[k1].step < t[k2].step
  }

  /** `LogsBelow(n)` holds only log lines of interval multiples below n, in step order. */
  lemma {:induction false} LogsBelowSound(cfg: RunConfig, worldSize: int, batchSize: int, epoch: nat, totSteps: int, n: nat)
    requires cfg.logInterval != 0
    ensures LogLinesBelow(cfg, worldSize, batchSize, epoch, totSteps, LogsBelow(cfg, worldSize, batchSize, epoch, totSteps, n), n)
    ensures InStepOrder(LogsBelow(cfg, worldSize, batchSize, epoch, totSteps, n))
  {
    if n > 0 {
      LogsBelowSound(cfg, worldSize, batchSize, epoch, totSteps, n - 1);
      var prev := LogsBelow(cfg, worldSize, batchSize, epoch, totSteps, n - 1);
      var extra := if (n - 1) % cfg.logInterval == 0 then [LogAt(cfg, worldSize, batchSize, epoch, totSteps, n - 1)] else [];
      var t := prev + extra;
      assert t == LogsBelow(cfg, worldSize, batchSize, epoch, totSteps, n);
      forall k | 0 <= k < |t|
        ensures t[k].Log? && t[k].step < n && t[k].step % cfg.logInterval == 0
        ensures t[k] == LogAt(cfg, worldSize, batchSize, epoch, totSteps, t[k].step)
      {
        if k < |prev| {
          assert t[k] == prev[k];
        } else {
          assert t[k] == extra[0];
        }
      }
      forall k1, k2 | 0 <= k1 < k2 < |t| && t[k1].Log? && t[k2].Log? ensures t[k1].step < t[k2].step {
        assert t[k1] == prev[k1];
        if k2 < |prev| {
          assert t[k2] == prev[k2];
        } else {
          assert t[k2] == extra[0];
        }
      }
    }
  }

  /** Every step below n that is a multiple of the interval has its log line in `LogsBelow(n)`. */
  lemma {:induction false} LogsBelowComplete(cfg: RunConfig, worldSize: int, batchSize: int, epoch: nat, totSteps: int, n: nat, s: nat)
    requires cfg.logInterval != 0
    requires s < n && s % cfg.logInterval == 0
    ensures LogAt(cfg, worldSize, batchSize, epoch, totSteps, s) in LogsBelow(cfg, worldSize, batchSize, epoch, totSteps, n)
  {
    if s < n - 1 {
      LogsBelowComplete(cfg, worldSize, batchSize, epoch, totSteps, n - 1, s);
    }
  }

  /** Step 0 is logged first. */
  lemma {:induction false} LogsBelowStartAtZero(cfg: RunConfig, worldSize: int, batchSize: int, epoch: nat, totSteps: int, n: nat)
    requires cfg.logInterval != 0 && n > 0
    ensures var t := LogsBelow(cfg, worldSize, batchSize, epoch, totSteps, n);
      |t| > 0 && t[0] == LogAt(cfg, worldSize, batchSize, epoch, totSteps, 0)
  {
    if n > 1 {
      LogsBelowStartAtZero(cfg, worldSize, batchSize, epoch, totSteps, n - 1);
    }
  }

  /**
   * On rank 0 an epoch logs at exactly the steps s in [0, tot_steps) with
   * `s % log_interval == 0`, step 0 first and in step order. Each line carries
   * the rate in effect at its step and averages over at least one and at most
   * `|log_interval|` updates of each meter.
   */
  lemma EpochLogsExact(cfg: RunConfig, worldSize: int, batchSize: int, epoch: nat, totSteps: int)
    requires cfg.logInterval != 0
    ensures var t := EpochTrace(cfg, worldSize, batchSize, 0, epoch, totSteps);
      && (forall k :: 0 <= k < |t| ==>
            && t[k].Log? && 0 <= t[k].step < totSteps && t[k].step % cfg.logInterval == 0
            && t[k].lr == ScheduledRate(cfg, worldSize, batchSize, epoch, t[k].step)
            && 1 <= t[k].lossUpdates == t[k].timeUpdates <= Abs(cfg.logInterval))
      && (forall k1, k2 :: 0 <= k1 < k2 < |t| ==> t[k1].step < t[k2].step)
      && (forall s: nat :: s < totSteps && s % cfg.logInterval == 0 ==>
            LogAt(cfg, worldSize, batchSize, epoch, totSteps, s) in t)
      && (totSteps > 0 ==> |t| > 0 && t[0].step == 0)
  {
    if totSteps > 0 {
      LogsBelowSound(cfg, worldSize, batchSize, epoch, totSteps, totSteps);
      LogsBelowStartAtZero(cfg, worldSize, batchSize, epoch, totSteps, totSteps);
      forall s: nat | s < totSteps && s % cfg.logInterval == 0
        ensures LogAt(cfg, worldSize, batchSize, epoch, totSteps, s) in EpochTrace(cfg, worldSize, batchSize, 0, epoch, totSteps)
      {
        LogsBelowComplete(cfg, worldSize, batchSize, epoch, totSteps, totSteps, s);
      }
    }
  }

  /** The checkpoint events of a trace, in order. */
  function Checkpoints(t: seq<Event>): (c: seq<Event>)
    ensures forall k :: 0 <= k < |c| ==> c[k].Checkpoint?
  {
    if t == [] then []
    else (if t[0].Checkpoint? then [t[0]] else []) + Checkpoints(t[1..])
  }

  lemma {:induction false} CheckpointsAppend(a: seq<Event>, b: seq<Event>)
    ensures Checkpoints(a + b) == Checkpoints(a) + Checkpoints(b)
  {
    if a == [] {
      assert a + b == b;
    } else {
      assert (a + b)[0] == a[0];
      assert (a + b)[1..] == a[1..] + b;
      CheckpointsAppend(a[1..], b);
    }
  }

  /** `train_one_epoch` itself saves nothing. */
  lemma {:induction false} EpochSavesNothing(cfg: RunConfig, worldSize: int, batchSize: int, rank: int, epoch: nat, totSteps: int)
    ensures Checkpoints(EpochTrace(cfg, worldSize, batchSize, rank, epoch, totSteps)) == []
  {
    var t := EpochTrace(cfg, worldSize, batchSize, rank, epoch, totSteps);
    if rank == 0 && totSteps > 0 && cfg.logInterval != 0 {
      LogsBelowSound(cfg, worldSize, batchSize, epoch, totSteps, totSteps);
      assert t == LogsBelow(cfg, worldSize, batchSize, epoch, totSteps, totSteps);
      forall k | 0 <= k < |t| ensures !t[k].Checkpoint? {
        assert t[k].Log?;
      }
    }
    NoCheckpoints(t);
  }

  lemma {:induction false} NoCheckpoints(t: seq<Event>)
    requires forall k :: 0 <= k < |t| ==> !t[k].Checkpoint?
    ensures Checkpoints(t) == []
  {
    if t != [] {
      NoCheckpoints(t[1..]);
    }
  }

  /** The checkpoints of epochs 0 .. n - 1: epoch e saved to `log-of-<stem>/epoch_<e>.pkl`. */
  function SavedEpochs(file: string, n: nat): seq<Event> {
    seq(n, e requires 0 <= e < n => Checkpoint(Naming.CheckpointPath(file, e), e))
  }

  /** Over epochs 0 .. n - 1, rank 0 saves each epoch once, in order. */
  lemma {:induction false} EpochsBelowCheckpoints(cfg: RunConfig, worldSize: int, batchSize: int, file: string, totSteps: int, n: nat)
    ensures Checkpoints(EpochsBelow(cfg, 0, worldSize, batchSize, file, totSteps, n)) == SavedEpochs(file, n)
  {
    if n > 0 {
      var prev := EpochsBelow(cfg, 0, worldSize, batchSize, file, totSteps, n - 1);
      var events := EpochTrace(cfg, worldSize, batchSize, 0, n - 1, totSteps) + SavedBy(0, file, n - 1);
      EpochsBelowCheckpoints(cfg, worldSize, batchSize, file, totSteps, n - 1);
      EpochSavesOnce(cfg, worldSize, batchSize, file, n - 1, totSteps);
      CheckpointsThenOne(prev, events, SavedEpochs(file, n - 1), Checkpoint(Naming.CheckpointPath(file, n - 1), n - 1));
      SavedEpochsStep(file, n);
    }
  }

  lemma CheckpointsThenOne(prev: seq<Event>, events: seq<Event>, saved: seq<Event>, c: Event)
    requires Checkpoints(prev) == saved && Checkpoints(events) == [c]
    ensures Checkpoints(prev + events) == saved + [c]
  {
    CheckpointsAppend(prev, events);
  }

  /** An epoch of rank 0 saves exactly its own checkpoint. */
  lemma EpochSavesOnce(cfg: RunConfig, worldSize: int, batchSize: int, file: string, epoch: nat, totSteps: int)
    ensures Checkpoints(EpochTrace(cfg, worldSize, batchSize, 0, epoch, totSteps) + SavedBy(0, file, epoch))
      == [Checkpoint(Naming.CheckpointPath(file, epoch), epoch)]
  {
    EpochSavesNothing(cfg, worldSize, batchSize, 0, epoch, totSteps);
    CheckpointsOfStep([], EpochTrace(cfg, worldSize, batchSize, 0, epoch, totSteps), SavedBy(0, file, epoch));
    assert [] + EpochTrace(cfg, worldSize, batchSize, 0, epoch, totSteps) == EpochTrace(cfg, worldSize, batchSize, 0, epoch, totSteps);
  }

  /** Appending a trace without checkpoints and then some checkpoints. */
  lemma CheckpointsOfStep(prev: seq<Event>, e: seq<Event>, saved: seq<Event>)
    requires Checkpoints(e) == []
    requires forall k :: 0 <= k < |saved| ==> saved[k].Checkpoint?
    ensures Checkpoints(prev + e + saved) == Checkpoints(prev) + saved
  {
    CheckpointsAppend(prev + e, saved);
    CheckpointsAppend(prev, e);
    SavedIsCheckpoints(saved);
    assert Checkpoints(prev) + [] == Checkpoints(prev);
  }

  /** A sequence of checkpoint events is its own checkpoint list. */
  lemma {:induction false} SavedIsCheckpoints(t: seq<Event>)
    requires forall k :: 0 <= k < |t| ==> t[k].Checkpoint?
    ensures Checkpoints(t) == t
  {
    if t != [] {
      SavedIsCheckpoints(t[1..]);
      assert t == [t[0]] + t[1..];
    }
  }

  /** Epoch n - 1 is saved after epochs 0 .. n - 2. */
  lemma SavedEpochsStep(file: string, n: nat)
    requires n > 0
    ensures SavedEpochs(file, n) == SavedEpochs(file, n - 1) + [Checkpoint(Naming.CheckpointPath(file, n - 1), n - 1)]
  {
    var a, b := SavedEpochs(file, n), SavedEpochs(file, n - 1) + [Checkpoint(Naming.CheckpointPath(file, n - 1), n - 1)];
    forall e | 0 <= e < n ensures a[e] == b[e] {
      if e < n - 1 {
        assert b[e] == SavedEpochs(file, n - 1)[e];
      }
    }
  }

  /**
   * A worker that does not fail: rank 0 saves one checkpoint per epoch, epoch
   * e into `log-of-<stem>/epoch_<e>.pkl` holding epoch e, all paths distinct;
   * any other rank logs and saves nothing at all.
   */
  lemma WorkerCheckpoints(cfg: RunConfig, rank: int, worldSize: int, batchSize: int, file: string)
    requires batchSize * worldSize != 0
    requires !EpochFails(cfg, rank, TotSteps(cfg, batchSize, worldSize))
    ensures var c := Checkpoints(WorkerTrace(cfg, rank, worldSize, batchSize, file));
      && (rank == 0 ==> c == SavedEpochs(file, if cfg.maxEpoch > 0 then cfg.maxEpoch else 0))
      && (forall i, j :: 0 <= i < j < |c| ==> c[i].path != c[j].path)
    ensures rank != 0 ==> WorkerTrace(cfg, rank, worldSize, batchSize, file) == []
  {
    var tot := TotSteps(cfg, batchSize, worldSize);
    var n: nat := if cfg.maxEpoch > 0 then cfg.maxEpoch else 0;
    if rank == 0 {
      EpochsBelowCheckpoints(cfg, worldSize, batchSize, file, tot, n);
    } else {
      OtherRanksSilent(cfg, rank, worldSize, batchSize, file, tot, n);
    }
    var c := Checkpoints(WorkerTrace(cfg, rank, worldSize, batchSize, file));
    forall i, j | 0 <= i < j < |c| ensures c[i].path != c[j].path {
      if c[i].path == c[j].path {
        Naming.CheckpointPathInjective(file, i, j);
      }
    }
  }

  lemma OtherRanksSilentFrom(cfg: RunConfig, rank: int, worldSize: int, batchSize: int, file: string)
    ensures rank != 0 && batchSize * worldSize != 0 ==>
      EpochsBelow(cfg, rank, worldSize, batchSize, file, TotSteps(cfg, batchSize, worldSize), if cfg.maxEpoch > 0 then cfg.maxEpoch else 0) == []
  {
    if rank != 0 && batchSize * worldSize != 0 {
      OtherRanksSilent(cfg, rank, worldSize, batchSize, file, TotSteps(cfg, batchSize, worldSize), if cfg.maxEpoch > 0 then cfg.maxEpoch else 0);
    }
  }

  /** Ranks other than 0 neither log nor save. */
  lemma {:induction false} OtherRanksSilent(cfg: RunConfig, rank: int, worldSize: int, batchSize: int, file: string, totSteps: int, n: nat)
    requires rank != 0
    ensures EpochsBelow(cfg, rank, worldSize, batchSize, file, totSteps, n) == []
  {
    if n > 0 {
      OtherRanksSilent(cfg, rank, worldSize, batchSize, file, totSteps, n - 1);
    }
  }

  /**
   * Ten images, batch 2, one device, one epoch, `--file net.py`: five steps,
   * a log line at step 0 and one checkpoint, `log-of-net/epoch_0.pkl`.
   */
  lemma TenImagesOneEpoch()
    ensures var cfg := RunConfig(0.01, 0.1, [], 0, 1, 10, 20);
      && TotSteps(cfg, 2, 1) == 5
      && WorkerTrace(cfg, 0, 1, 2, "net.py")
           == [LogAt(cfg, 1, 2, 0, 5, 0), Checkpoint("log-of-net/epoch_0.pkl", 0)]
  {
    var cfg := RunConfig(0.01, 0.1, [], 0, 1, 10, 20);
    assert TotSteps(cfg, 2, 1) == 5;
    assert LogsBelow(cfg, 1, 2, 0, 5, 1) == [LogAt(cfg, 1, 2, 0, 5, 0)];
    assert LogsBelow(cfg, 1, 2, 0, 5, 2) == [LogAt(cfg, 1, 2, 0, 5, 0)];
    assert LogsBelow(cfg, 1, 2, 0, 5, 3) == [LogAt(cfg, 1, 2, 0, 5, 0)];
    assert LogsBelow(cfg, 1, 2, 0, 5, 4) == [LogAt(cfg, 1, 2, 0, 5, 0)];
    assert LogsBelow(cfg, 1, 2, 0, 5, 5) == [LogAt(cfg, 1, 2, 0, 5, 0)];
    Naming.DefaultFileNames();
  }
}
