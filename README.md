# Superpixel GCN training loop: checkpoint retention, epoch control, parameter count

This project models the control logic of the training script of a graph
convolutional network trained on superpixel graphs (MNIST / CIFAR10). It
covers three parts of the script:

- **save_checkpoint.** The checkpoint directory is a `CheckpointDir` object with its path and its set of entry
  names. Saving epoch `e` writes `epoch_{e}.pkl` into the directory. It then
  lists every `*.pkl` entry, reads an epoch number out of each listed path
  with `int(path.split('_')[-1].split('.')[0])`, and deletes every entry whose
  number is below `e - 1`. Entry names are strings. The decimal
  formatting, the two splits and Python's `int()` are written out as
  functions (`CheckpointNames`). The parse runs on the full path that glob
  reports, as in the script, so underscores and dots in the directory path
  take part in it. glob lists the entries in no fixed order. When `int()`
  raises partway through the pass, the model therefore only bounds what is
  left: at least the entries a complete pass would keep, and at most
  the entries before the pass.
- **The epoch loop of train_val_pipeline.** `Training.TrainValPipeline` runs
  up to `params['epochs']` epochs. Each epoch saves a checkpoint, appends to
  the four history lists and `per_epoch_time`, and logs five scalars. Then
  it runs the two stop tests, in order: learning rate strictly below
  `min_lr`, then elapsed time strictly above `max_time * 3600`. The training
  pass, the evaluation passes, the learning-rate scheduler and the clock are
  opaque, so the values they produce in each epoch are given as a sequence
  of `EpochReport`s. `Training.Run` is the reference definition of how many
  epochs complete and why the loop ends. An exception raised by
  save_checkpoint ends the run. The model proves that this can only happen
  on the first save, and exactly when the directory already holds a `.pkl`
  entry whose name cannot be read as a number.
- **view_model_param.** `ModelParams.ViewModelParam` adds up, parameter by
  parameter, the product of each tensor's sizes. Each tensor is a list of
  natural numbers.

Two points about the script that the model follows:

- `os.remove` (line 50) is not guarded, so a failing deletion would end the
  run. The model has no failing deletion, because every deleted entry was
  just listed.
- Only the training and validation losses and accuracies and the learning
  rate are logged (lines 111-115). Test metrics are not logged.

## Model

| member | source | states |
|---|---|---|
| `CheckpointNames.Decimal` | main_superpixels_gcn.py:47 | `'{}'.format(epoch)` is a non-empty run of decimal digits without a leading zero (except for 0 itself) |
| `CheckpointNames.DecimalRoundTrip` | main_superpixels_gcn.py:47 | the digits written for `n` have the value `n` |
| `CheckpointNames.ParseIntDecimal` | main_superpixels_gcn.py:49 | `int()` of the text `'{}'.format(n)` gives back `n` |
| `CheckpointNames.AfterLastIsLastPart` | main_superpixels_gcn.py:49 | `split('_')[-1]` is the suffix after the last `_`: it holds no `_` and is preceded by `_` unless it is the whole string |
| `CheckpointNames.BeforeFirstIsFirstPart` | main_superpixels_gcn.py:49 | `split('.')[0]` is the prefix before the first `.`: it holds no `.` and is followed by `.` unless it is the whole string |
| `CheckpointNames.StripLeadingRemovesSpace` | main_superpixels_gcn.py:49 | `int()` drops only leading white space, up to the first other character |
| `CheckpointNames.StripTrailingRemovesSpace` | main_superpixels_gcn.py:49 | `int()` drops only trailing white space, back to the last other character |
| `CheckpointNames.ParseIntRejectsSlash` | main_superpixels_gcn.py:49 | `int()` raises on any text containing `/` |
| `CheckpointNames.ParseEpochOfCheckpoint` | main_superpixels_gcn.py:47-49 | the parse of the globbed path of `epoch_{e}.pkl` yields `e`, whatever the directory path contains, underscores and dots included |
| `CheckpointNames.CheckpointNameInjective` | main_superpixels_gcn.py:47 | two epochs share a checkpoint name if and only if they are equal |
| `Checkpoints.RetainedCheckpoint` | main_superpixels_gcn.py:48-50 | the file of epoch `k` survives saving `epoch` if and only if `k >= epoch - 1`, so the file just written always stays |
| `Checkpoints.EpochZeroKeepsCheckpoints` | main_superpixels_gcn.py:48-50 | saving epoch 0 keeps every checkpoint file, and keeps the whole directory unless some listed name reads as a number below -1 |
| `Checkpoints.StrayPklIsUnreadable` | main_superpixels_gcn.py:48-49 | a `.pkl` entry with no `_` in its name, in a directory whose path has no `.`, cannot be read as a number |
| `Checkpoints.SavedUpToReadable` | main_superpixels_gcn.py:47-49 | every checkpoint file the loop writes can be read back |
| `Checkpoints.RetainedCompose` | main_superpixels_gcn.py:48-50 | pruning at a lower epoch, adding files, then pruning at a higher epoch leaves the same entries as the last pruning alone |
| `Checkpoints.AfterSavesClosedForm` | main_superpixels_gcn.py:46-53 | after saving epochs `0..n-1` in order, the directory is the starting entries plus every file written, pruned once at epoch `n - 1` |
| `Checkpoints.AfterSavesReadable` | main_superpixels_gcn.py:46-53 | saves never make a readable directory unreadable |
| `Checkpoints.FreshRunKeepsLastTwo` | main_superpixels_gcn.py:94-104 | saving epochs `0..n-1` into an empty directory leaves exactly `{epoch_0.pkl}` when `n = 1` and exactly the files of epochs `n-2` and `n-1` otherwise |
| `Checkpoints.CheckpointDir.PruneEntry` | main_superpixels_gcn.py:49-50 | one pass over a listed entry: reports whether `int()` could read its number, and deletes the entry exactly when it is stale |
| `Checkpoints.CheckpointDir.SaveCheckpoint` | main_superpixels_gcn.py:46-53 | the new file is present afterwards, even when the save raises; the save completes if and only if no listed name is unreadable, and then the directory is exactly the pruned set; after a raise it lies between the pruned set and the set before pruning, and the name that raised is still there |
| `Training.HistoryLockStep` | main_superpixels_gcn.py:106-117 | after `n` completed epochs the four history lists and `per_epoch_time` all have length `n`, entry `i` is epoch `i`'s value, and the log holds epoch `i`'s five scalars at positions `5i..5i+4` |
| `Training.LogStepsAscend` | main_superpixels_gcn.py:111-115 | only the training and validation losses and accuracies and the learning rate are logged, and log steps never decrease |
| `Training.RunCompletedBounds` | main_superpixels_gcn.py:94-128 | no epoch runs when `epochs <= 0`; otherwise at least one and at most `epochs` epochs complete |
| `Training.RunStopsAtFirstFailedTest` | main_superpixels_gcn.py:122-128 | every epoch before the last passed both tests. A learning-rate stop means `lr < min_lr` (equality does not stop the loop). A time stop means `lr >= min_lr` and `elapsed > max_time * 3600`, so the learning-rate test wins when both hold. Running out of epochs means all `epochs` ran and passed |
| `Training.RunIsFirstFailedTest` | main_superpixels_gcn.py:122-128 | conversely, the first epoch to fail a test is the last one run, with that test's reason, and if no epoch fails one then all `epochs` run |
| `Training.ZeroTimeBudgetRunsOneEpoch` | main_superpixels_gcn.py:126-128 | with `max_time = 0` and a positive elapsed time the loop stops after exactly one epoch, on the time test, unless the learning rate is already below `min_lr` |
| `Training.ThreeEpochsRunToTheEnd` | main_superpixels_gcn.py:94-130 | with `epochs = 3` and no stop test firing, exactly three epochs run and the loop ends by exhausting them |
| `Training.TrainValPipeline` | main_superpixels_gcn.py:92-130 | the loop raises if and only if `epochs >= 1` and the directory starts with an unreadable `.pkl` name, and then it has completed no epoch. Otherwise its stop reason and completed epochs are those of `Run`, its histories are those of the completed epochs, and the directory is the result of saving each completed epoch in order |
| `ModelParams.ViewModelParam` | main_superpixels_gcn.py:29-33 | the loop's total is the sum over the tensors of the product of their sizes |
| `ModelParams.SizeZeroIff` | main_superpixels_gcn.py:32 | a tensor holds no entries if and only if one of its sizes is 0; a tensor with no dimensions holds one |
| `ModelParams.TotalSizeAppend` | main_superpixels_gcn.py:30-32 | the count over two lists of tensors placed end to end is the sum of their counts |
| `ModelParams.ZeroSizedTensorAddsNothing` | main_superpixels_gcn.py:30-32 | removing a tensor with a zero size leaves the count unchanged |
| `ModelParams.TensorWithinTotal` | main_superpixels_gcn.py:30-32 | no tensor's size exceeds the count |

## Left out

- The network, the optimizer (Adam), the plateau scheduler, the data loaders, the dataset and `train_epoch` / `evaluate_network` (lines 58-61, 73-85, 99-103) are external code. Their results (losses, accuracies, the learning rate after `scheduler.step`) are inputs to the loop model.
- `time.time()` readings (lines 92, 95, 117, 126) are inputs: each epoch's duration and the time elapsed since the loop started.
- The final evaluation and the summary printout (lines 132-139) are left out. They consist of opaque evaluation calls, printing and a floating-point mean.
- `Tools.print` output is left out. The `SummaryWriter` is reduced to the sequence of `add_scalar` calls it receives; creating and closing it (lines 66, 139) is not modelled.
- `gpu_setup`, `set_seed` and `main`'s configuration and directory creation (lines 17-26, 36-43, 143-192) are left out: they only set up the device, the random state and the directories. The checkpoint directory's path and starting contents are parameters.
- `torch.save` is modelled only as adding the file's name to the directory; what it writes is not modelled.
- `Checkpoints.CheckpointDir.SaveCheckpoint`: does not model an empty directory path. For that path `os.path.join` writes into the working directory while glob scans `/`.
- `Checkpoints.CheckpointDir.SaveCheckpoint`: does not model `os.remove` failing (a directory named `*.pkl`, missing permissions, a file removed concurrently). Every deletion is of an entry that was just listed.
- `CheckpointNames.ParseInt`: `int()` is modelled for ASCII digits and ASCII white space only. Non-ASCII digits and Unicode white space are rejected here, although Python accepts them. Underscores never reach it, because the text was split on `_`.
- `Training.TrainValPipeline`: losses, accuracies, learning rates and times are exact reals, so floating-point rounding in `max_time * 3600` and in the comparisons is not modelled.
- `ModelParams.ViewModelParam`: the model counts with unbounded naturals. It does not model that `np.prod` computes in 64-bit integers, nor that it returns the float `1.0` for a tensor with no dimensions.
- `Checkpoints.CheckpointDir.SaveCheckpoint`: treats the directory path literally when listing. glob treats `*`, `?` and `[` in `root_ckpt_dir` as pattern characters. With such a path the script lists and prunes some other directory, or none, while the model prunes the directory it wrote into.
- `Training.TrainValPipeline`: models only the exception raised by `save_checkpoint`'s parse. An exception from `train_epoch`, `evaluate_network` or `torch.save` (lines 99-104) also ends the run, and is not modelled.
