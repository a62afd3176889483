# The decision layer of the MegEngine detection trainer

`official/vision/detection/tools/train.py` trains a detection network on one or
more GPUs. Around the numerical work (the network, SGD, the data loader and the
worker processes) sits a small deterministic layer that decides:

- how many workers run and with which `(rank, world_size)`;
- where the run's logs and checkpoints go;
- which learning rate every parameter group holds at every step;
- how many steps an epoch has, and at which steps rank 0 logs;
- which aspect-ratio group each image falls into.

This project models that layer in Dafny and proves what it promises.

Modules:

- `Bisect` — `bisect_right`, as the library's halving loop (`BisectRight`) and as a recursive function (`BisectSearch`). On a sorted list both equal `CountLe`, the number of elements <= the probe.
- `Naming` — `os.path.basename`, the stem cut at the first `.`, the log directory `log-of-<stem>` and the checkpoint path `log-of-<stem>/epoch_<e>.pkl`.
- `Dispatch` — the world-size decision in `main`, and the launch plan: exit code 1, one worker in this process, or one worker per rank.
- `Config` — the fields of the model's `Cfg` that the decisions read.
- `Schedule` — the epoch rate `basic_lr * world_size * batch_size * lr_decay_rate ** bisect_right(lr_decay_stages, epoch)` and the linear warmup of epoch 0. The optimizer's parameter groups are an `array<real>` that the two schedule methods overwrite in place.
- `Training` — `tot_steps`, the step loop of `train_one_epoch` and the epoch loop of `worker`. Each produces a trace of observable events:
  - the log lines, which carry the rate and the number of meter updates they average;
  - the checkpoints saved;
  - a Python `ZeroDivisionError`, which ends the worker.
- `Sampler` — `_quantize`, `sorted`, and the choice between random and grouped sampling in `build_sampler`.

Python semantics are written out where they differ from Dafny's:

- `//` rounds toward minus infinity (`Training.FloorDiv`).
- `%` takes the divisor's sign (`Training.PyMod`). `Training.PyModZero` shows that it is zero exactly when Dafny's `%` is.
- Division by zero raises. This happens for `batch_size * world_size == 0` and, on rank 0, for `log_interval == 0`.

The rates are exact reals.

## Model

| member | source | states |
|---|---|---|
| `Dispatch.WorldSize` | official/vision/detection/tools/train.py:66-74 | -1 takes all available devices; the run is refused exactly when a request other than -1 exceeds the available count; otherwise the request is taken as is; an accepted world size never exceeds the available count |
| `Dispatch.TooFewDevicesRejected` | official/vision/detection/tools/train.py:70-72 | asking for 8 devices with 4 available is refused |
| `Dispatch.Run` | official/vision/detection/tools/train.py:66-93 | exit code 1 exactly when the request is refused, before any log directory or worker; otherwise the log directory is `log-of-<stem>`; a world size above 1 starts exactly `world_size` workers, at most the available count, with ranks 0, 1, ... in order, each given the world size; any other world size runs one worker (0, 1) in process |
| `Naming.Basename` | official/vision/detection/tools/train.py:78 | the basename holds no '/' |
| `Naming.BasenameIsLastComponent` | official/vision/detection/tools/train.py:78 | the basename is a suffix of the path, preceded by a '/' unless it is the whole path |
| `Naming.BeforeFirstDot` | official/vision/detection/tools/train.py:78 | `split(".")[0]`: a prefix holding no '.', followed by a '.' unless it is the whole string |
| `Naming.Stem` | official/vision/detection/tools/train.py:156 | the stem holds neither '.' nor '/' |
| `Naming.LogDir` | official/vision/detection/tools/train.py:78 | the log directory starts with `log-of-` and holds no '/' |
| `Naming.FileName` | official/vision/detection/tools/train.py:155 | the checkpoint file name starts with `epoch_`, ends with `.pkl` and holds no '/' |
| `Naming.CheckpointPath` | official/vision/detection/tools/train.py:155-157 | the checkpoint path holds exactly one '/', right after the log directory, with a non-empty file name after it |
| `Naming.Decimal` | official/vision/detection/tools/train.py:155 | the printed epoch is a non-empty string of digits, with a leading '0' only for 0 |
| `Naming.DecimalRoundTrip` | official/vision/detection/tools/train.py:155 | parsing the printed number gives the number back |
| `Naming.DecimalInjective` | official/vision/detection/tools/train.py:155 | distinct numbers print differently |
| `Naming.CheckpointInLogDir` | official/vision/detection/tools/train.py:155-157 | the checkpoint path is the startup log directory followed by '/', and the rest is the epoch's file name |
| `Naming.CheckpointPathInjective` | official/vision/detection/tools/train.py:155-157 | two epochs with the same checkpoint path are the same epoch |
| `Naming.DefaultFileNames` | official/vision/detection/tools/train.py:78 | with the default `net.py` the log directory is `log-of-net` and epoch 0 goes to `log-of-net/epoch_0.pkl` |
| `Bisect.BisectFrom` | official/vision/detection/tools/train.py:139 | the halving search over [lo, hi) closes inside that window |
| `Bisect.BisectSearch` | official/vision/detection/tools/train.py:139 | `bisect_right` lies in [0, len] |
| `Bisect.BisectFromSplits` | official/vision/detection/tools/train.py:139 | on any list, a search whose window neighbours straddle the probe ends between an element <= the probe and one > it |
| `Bisect.BisectFromCounts` | official/vision/detection/tools/train.py:139 | on a sorted list, the search ends at the number of elements <= the probe |
| `Bisect.BisectSearchSplits` | official/vision/detection/tools/train.py:250 | `bisect_right` splits any list at a point with an element <= x on its left and > x on its right; on a sorted list it counts the elements <= x |
| `Bisect.BisectRight` | official/vision/detection/tools/train.py:139 | the library's lo/hi loop computes `bisect_right`, with the split and count properties above |
| `Bisect.CountLeMonotone` | official/vision/detection/tools/train.py:283 | a larger probe never counts fewer elements |
| `Bisect.CountLeExceedsIndex` | official/vision/detection/tools/train.py:139 | on a sorted list the count exceeds i exactly when element i is <= the probe |
| `Schedule.Pow` | official/vision/detection/tools/train.py:138-139 | Python's `**` on a non-negative integer exponent, by repeated multiplication; its bounds are stated by `Schedule.PowInUnit` and `Schedule.PowNonIncreasing` |
| `Schedule.BaseRate` | official/vision/detection/tools/train.py:134-136 | the undecayed rate `basic_lr * world_size * batch_size`, which is also the rate the optimizer is built with; its sign is stated by `Schedule.BaseRateNonNegative` |
| `Schedule.BaseRateNonNegative` | official/vision/detection/tools/train.py:134-136 | non-negative factors give a non-negative undecayed rate, and no devices or a zero batch size give 0 |
| `Schedule.InWarmup` | official/vision/detection/tools/train.py:254 | warmup applies in epoch 0 only, and a step in warmup implies a positive `warm_iters`, so the ramp never divides by zero |
| `Schedule.DecayExponent` | official/vision/detection/tools/train.py:139 | the decay exponent lies in [0, number of stages] |
| `Schedule.DecayExponentCounts` | official/vision/detection/tools/train.py:139 | on sorted stages the exponent is the number of stages <= the epoch |
| `Schedule.DecayExponentMonotone` | official/vision/detection/tools/train.py:131-141 | the exponent never decreases from one epoch to a later one |
| `Schedule.StagePassed` | official/vision/detection/tools/train.py:139 | stage i is passed exactly when it is <= the epoch, so a stage equal to the epoch decays that epoch |
| `Schedule.PowInUnit` | official/vision/detection/tools/train.py:138-139 | powers of a decay factor in [0, 1] stay in [0, 1] |
| `Schedule.PowNonIncreasing` | official/vision/detection/tools/train.py:138-139 | powers of a decay factor in [0, 1] stay in [0, 1] and shrink with the exponent |
| `Schedule.EpochRate` | official/vision/detection/tools/train.py:133-141 | before the first passed stage the epoch rate is `basic_lr * world_size * batch_size`; with a decay factor in [0, 1] and a non-negative undecayed rate it lies between 0 and that rate |
| `Schedule.ScaledPowBound` | official/vision/detection/tools/train.py:138-139 | a non-negative amount scaled by a power of a factor in [0, 1] stays between 0 and the amount; the zeroth power leaves it unchanged |
| `Schedule.EpochRateNonIncreasing` | official/vision/detection/tools/train.py:133-141 | with a decay factor in [0, 1], a later epoch never gets a larger rate |
| `Schedule.WarmupIncreasing` | official/vision/detection/tools/train.py:255-257 | the warmup rate strictly increases with the step |
| `Schedule.WarmupRate` | official/vision/detection/tools/train.py:255-257 | with a positive base the ramp stays in (0, base], is strictly below the base before step `warm_iters - 1` and equals it at that step |
| `Schedule.ScheduledRate` | official/vision/detection/tools/train.py:253-257 | outside the warmup steps the rate in effect is the epoch rate, and so it is at the last warmup step; in warmup it is positive and at most a positive epoch rate |
| `Schedule.DecayExample` | official/vision/detection/tools/train.py:133-141 | stages [3, 6], factor 0.1, rate 0.01: epochs 2, 3 and 7 get 0.01, 0.001 and 0.0001 |
| `Schedule.SetEpochRate` | official/vision/detection/tools/train.py:132-141 | every parameter group is set to the epoch rate |
| `Schedule.AdjustLearningRate` | official/vision/detection/tools/train.py:243-257 | in warmup (epoch 0 and step < `warm_iters`) every group gets `base * (step + 1) / warm_iters`, without dividing by zero; otherwise no group changes |
| `Training.FloorDiv` | official/vision/detection/tools/train.py:143 | Python's `//`: the quotient rounded toward minus infinity, for either sign of the divisor |
| `Training.PyMod` | official/vision/detection/tools/train.py:213 | Python's `%`: the remainder of the floor division, with the divisor's sign and a magnitude below the divisor's |
| `Training.PyModZero` | official/vision/detection/tools/train.py:213 | Python's `step % log_interval` is 0 exactly when Dafny's `%` is |
| `Training.ModZeroAbs` | official/vision/detection/tools/train.py:213 | Dafny's `%` by the interval is 0 exactly when `%` by the interval's magnitude is, so a step is logged exactly when it is a multiple of `abs(log_interval)` |
| `Training.TotSteps` | official/vision/detection/tools/train.py:143 | with a positive global batch, `tot_steps` global batches fit in the epoch's images and one more does not |
| `Training.MeterCount` | official/vision/detection/tools/train.py:212-225 | the meters hold between 1 and `abs(log_interval)` updates when averaged |
| `Training.MeterStep` | official/vision/detection/tools/train.py:212-225 | on rank 0 a logged step averages the pending updates plus its own and leaves none pending; any other step adds one pending update |
| `Training.RateSettled` | official/vision/detection/tools/train.py:254-257 | outside warmup the rate already held is the rate in effect, so leaving the groups alone is right |
| `Training.TrainOneEpoch` | official/vision/detection/tools/train.py:183-225 | the step loop yields the epoch's trace: nothing on other ranks or with no steps, a division by zero at step 0 on rank 0 with `log_interval == 0`, otherwise the log lines of the interval multiples; it fails exactly in that one case; the groups end at the rate of the last step run |
| `Training.LogAt` | official/vision/detection/tools/train.py:214-223 | the line logged at a step carries the epoch, that step, `tot_steps`, the scheduled rate and equal meter counts between 1 and `abs(log_interval)` |
| `Training.LogsBelow` | official/vision/detection/tools/train.py:213-223 | the steps below n log at most n lines, all log lines, and at least one when n > 0 (step 0) |
| `Training.EpochFails` | official/vision/detection/tools/train.py:213 | rank 0 with at least one step and `log_interval == 0`: `step % log_interval` raises at step 0; `Training.EpochTrace` shows that the epoch's trace is then the error alone, and only then |
| `Training.EpochTrace` | official/vision/detection/tools/train.py:183-225 | an epoch's step loop yields events exactly on rank 0 with at least one step, never more than one per step, and is the division by zero alone exactly when `Training.EpochFails` holds |
| `Training.LogsBelowSound` | official/vision/detection/tools/train.py:213-223 | logged lines are of steps below the bound that are interval multiples, each with that step's rate and meter counts, in step order |
| `Training.LogsBelowComplete` | official/vision/detection/tools/train.py:213 | every interval multiple below the bound is logged |
| `Training.LogsBelowStartAtZero` | official/vision/detection/tools/train.py:213 | step 0 is logged first |
| `Training.EpochLogsExact` | official/vision/detection/tools/train.py:203-225 | rank 0 logs exactly the steps in [0, `tot_steps`) with `step % log_interval == 0`, step 0 first, in order, each with the scheduled rate and averages over at least 1 and at most `abs(log_interval)` updates of both meters |
| `Training.EpochSavesNothing` | official/vision/detection/tools/train.py:183-225 | an epoch's step loop saves no checkpoint |
| `Training.SavedBy` | official/vision/detection/tools/train.py:154-161 | only rank 0 saves after an epoch, and what it saves is that epoch's checkpoint at its checkpoint path |
| `Training.EpochsBelow` | official/vision/detection/tools/train.py:131-161 | the epoch loop's events when no epoch fails: rank 0 yields at least one event per epoch (its save) and, with at least one step, at least two (a log line and the save) |
| `Training.WorkerTrace` | official/vision/detection/tools/train.py:131-161 | a rank other than 0 yields nothing or only the division by zero; with at least one epoch and a zero global batch the worker yields only the division by zero |
| `Training.Worker` | official/vision/detection/tools/train.py:131-161 | the parameter groups belong to an optimizer the worker builds itself, so no caller sees them; the epoch loop yields the worker's trace: per epoch the epoch rate, `tot_steps`, the step loop and, on rank 0, the epoch's checkpoint; a division by zero ends it |
| `Training.SavedEpochsStep` | official/vision/detection/tools/train.py:154-160 | the checkpoints of n epochs are those of the first n - 1 followed by epoch n - 1's, saved at `log-of-<stem>/epoch_<n - 1>.pkl` |
| `Training.EpochSavesOnce` | official/vision/detection/tools/train.py:154-160 | on rank 0 one epoch, step loop and save together, saves exactly that epoch's checkpoint |
| `Training.EpochsBelowCheckpoints` | official/vision/detection/tools/train.py:154-160 | over n epochs rank 0 saves each epoch once, in order |
| `Training.WorkerCheckpoints` | official/vision/detection/tools/train.py:154-161 | a worker that does not fail saves on rank 0 one checkpoint per epoch at distinct paths; any other rank logs and saves nothing |
| `Training.OtherRanksSilentFrom` | official/vision/detection/tools/train.py:131-161 | with a non-zero global batch, the epochs of a rank other than 0 yield no event |
| `Training.OtherRanksSilent` | official/vision/detection/tools/train.py:205 | ranks other than 0 produce no event |
| `Training.TenImagesOneEpoch` | official/vision/detection/tools/train.py:143 | 10 images, batch 2, one device: 5 steps, a log line at step 0 and one checkpoint `log-of-net/epoch_0.pkl` |
| `Sampler.Insert` | official/vision/detection/tools/train.py:283 | inserting into a sorted list keeps it sorted, makes it one element longer, and heads it by the new element or the old head |
| `Sampler.InsertPermutes` | official/vision/detection/tools/train.py:283 | inserting into a sorted list adds exactly the new element to its multiset |
| `Sampler.InsertCount` | official/vision/detection/tools/train.py:283 | inserting adds one to the count of every probe at or above the new element and leaves the others |
| `Sampler.Sort` | official/vision/detection/tools/train.py:283 | `sorted(bins)` is a sorted permutation of the bins |
| `Sampler.SortCount` | official/vision/detection/tools/train.py:283 | sorting keeps the count of bins <= any probe |
| `Sampler.SortedUnique` | official/vision/detection/tools/train.py:283 | two sorted lists with the same elements are equal |
| `Sampler.CountLeMultiset` | official/vision/detection/tools/train.py:283 | the count of elements <= a probe depends only on the elements, not their order |
| `Sampler.GroupId` | official/vision/detection/tools/train.py:283 | `bisect_right(sorted(bins), y)` is the number of bins <= y, at most the number of bins |
| `Sampler.Quantize` | official/vision/detection/tools/train.py:282-283 | one group id per ratio, each the number of bins <= the ratio and at most the number of bins |
| `Sampler.QuantizeMonotone` | official/vision/detection/tools/train.py:282-283 | a larger ratio never gets a smaller group id |
| `Sampler.QuantizeIgnoresBinOrder` | official/vision/detection/tools/train.py:282-283 | the order the bins are listed in does not change the ids |
| `Sampler.BuildSampler` | official/vision/detection/tools/train.py:285-290 | no bins means random sampling with `drop_last`; otherwise one group id per image from `_quantize`; either way the batch size is passed on and the chosen sampler is wrapped in the `Infinite` constructor |
| `Sampler.DefaultGroupingSplitsAtOne` | official/vision/detection/tools/train.py:274 | with the default bin `[1]`, ratios below 1 get group 0 and the others group 1 |

## Left out

- Argument parsing (`make_parser`): its defaults (`net.py`, `ngpus = -1`) appear only as inputs.
- The device count is a parameter of `Dispatch.Run`; the GPU query is not modelled.
- Starting and joining processes and `dist.init_process_group`: only the `(rank, world_size)` plan is modelled.
- The dynamic import of the model file, the network, `SGD`, `jit.trace`, the forward and backward pass and the optimizer step: a step of the loop only adjusts the rate and updates the meters.
- The values the meters average (losses and times, `time.time()`): the model tracks only how many updates each meter holds.
- The text and float formatting of log lines, `mge.save`, `mge.load`, `os.makedirs` and the logger: a log line and a checkpoint are events in a trace.
- Floating-point rounding: rates are exact reals.
- Loading `--weight_file`, `get_config_info` and `build_dataset`: I/O and presentation.
- `_compute_aspect_ratios` (dataset metadata via `get_img_info`): the ratios are inputs to `Sampler.BuildSampler`.
- `GroupedRandomSampler`, `AverageMeter`, `Infinite`, `RandomSampler` and `DataLoader` are not part of this model. Their code lives in other modules, so the sampler is modelled as the constructor it chooses and its arguments.
- `build_dataloader` is modelled only through the default grouping `[1]` it leaves to `build_sampler`.
- `Training.TrainOneEpoch` requires every parameter group to hold the epoch rate on entry, which is how `worker` calls it. It also requires at least one parameter group: the optimizer always has one, and a log line reads the first.
- `Schedule.DecayExponentMonotone`, `Schedule.StagePassed` and `Schedule.EpochRateNonIncreasing` assume sorted decay stages, the order `bisect_right` expects. The schedule itself is modelled on any list.
- `Training.TotSteps` states its floor-division bounds only for a positive global batch. A negative batch size or device count does not arise, and `Training.FloorDiv` covers both signs of the divisor.
