/** The epoch loop of train_val_pipeline: run up to params['epochs'] epochs,
    save a checkpoint after each, append the epoch's numbers to the history
    lists and the metric log, and stop early once the learning rate has
    dropped below params['min_lr'] or the run has used up
    params['max_time'] hours. The training and evaluation passes, the
    learning-rate scheduler and the clock are not modelled: what they yield in
    each epoch is given as an EpochReport. */
module Training {
  import opened CheckpointNames
  import opened Checkpoints

  /** The entries of params the loop reads. */
  datatype Params = Params(epochs: int, minLr: real, maxTimeHours: real)

  /** What the opaque calls and the clock yield in one epoch. */
  datatype EpochReport = EpochReport(
    trainLoss: real, trainAcc: real,  // train_epoch
    valLoss: real, valAcc: real,      // evaluate_network on the validation set
    testLoss: real, testAcc: real,    // evaluate_network on the test set
    lr: real,                         // the optimizer's rate after scheduler.step
    epochTime: real,                  // seconds since the epoch started
    elapsed: real)                    // seconds since the loop started

  datatype StopReason = LrBelowMin | TimeLimitExceeded | EpochsExhausted

  /** How many epochs ran to completion and why the loop ended. */
  datatype Verdict = Verdict(completed: nat, reason: StopReason)

  /** One writer.add_scalar(tag, value, step) call. */
  datatype Scalar = Scalar(tag: string, value: real, step: nat)

  /** The lists the loop appends to, and the scalars it logged. */
  datatype History = History(
    trainLosses: seq<real>, valLosses: seq<real>,
    trainAccs: seq<real>, valAccs: seq<real>,
    perEpochTime: seq<real>, log: seq<Scalar>)

  /** How a run ended: one of the stop rules, or the exception save_checkpoint
      raised on an unreadable '.pkl' name. */
  datatype RunOutcome = Stopped(reason: StopReason) | SaveRaised(name: string)

  /** The stop tests run after an epoch, the learning rate first. */
  function StopTest(p: Params, r: EpochReport): Option<StopReason> {
    if r.lr < p.minLr then Some(LrBelowMin)
    else if r.elapsed > p.maxTimeHours * 3600.0 then Some(TimeLimitExceeded)
    else None
  }

  /** The loop's verdict from epoch k on, every earlier epoch having passed
      the stop tests. */
  function RunFrom(p: Params, reports: seq<EpochReport>, k: nat): (v: Verdict)
    requires p.epochs <= |reports| && k <= |reports|
    ensures k <= v.completed <= |reports|
    decreases |reports| - k
  {
    if k >= p.epochs then Verdict(k, EpochsExhausted)
    else match StopTest(p, reports[k])
      case Some(reason) => Verdict(k + 1, reason)
      case None => RunFrom(p, reports, k + 1)
  }

  function Run(p: Params, reports: seq<EpochReport>): (v: Verdict)
    requires p.epochs <= |reports|
    ensures v.completed <= |reports|
  {
    RunFrom(p, reports, 0)
  }

  /** The five scalars logged for one epoch; test metrics are not logged. */
  function EpochScalars(epoch: nat, r: EpochReport): seq<Scalar> {
    [Scalar("train/_loss", r.trainLoss, epoch), Scalar("val/_loss", r.valLoss, epoch),
     Scalar("train/_acc", r.trainAcc, epoch), Scalar("val/_acc", r.valAcc, epoch),
     Scalar("learning_rate", r.lr, epoch)]
  }

  /** The history after the given epochs have completed, in order. */
  function HistoryOf(reports: seq<EpochReport>): History {
    if reports == [] then History([], [], [], [], [], [])
    else
      var h := HistoryOf(reports[..|reports| - 1]);
      var r := reports[|reports| - 1];
      History(h.trainLosses + [r.trainLoss], h.valLosses + [r.valLoss],
              h.trainAccs + [r.trainAcc], h.valAccs + [r.valAcc],
              h.perEpochTime + [r.epochTime], h.log + EpochScalars(|reports| - 1, r))
  }

  /** The history lists grow in lock-step, one entry per completed epoch, each
      holding that epoch's own number; the log holds five scalars per epoch,
      stepped with the epoch's index. */
  lemma {:induction false} HistoryLockStep(reports: seq<EpochReport>)
    ensures var h := HistoryOf(reports);
      && |h.trainLosses| == |reports| && |h.valLosses| == |reports|
      && |h.trainAccs| == |reports| && |h.valAccs| == |reports|
      && |h.perEpochTime| == |reports| && |h.log| == 5 * |reports|
      && (forall i :: 0 <= i < |reports| ==>
            && h.trainLosses[i] == reports[i].trainLoss && h.valLosses[i] == reports[i].valLoss
            && h.trainAccs[i] == reports[i].trainAcc && h.valAccs[i] == reports[i].valAcc
            && h.perEpochTime[i] == reports[i].epochTime
            && h.log[5 * i..5 * i + 5] == EpochScalars(i, reports[i]))
    decreases |reports|
  {
    if reports != [] {
      var front := reports[..|reports| - 1];
      HistoryLockStep(front);
      var h, g := HistoryOf(reports), HistoryOf(front);
      forall i | 0 <= i < |reports|
        ensures h.log[5 * i..5 * i + 5] == EpochScalars(i, reports[i])
      {
        if i < |front| {
          assert h.log[5 * i..5 * i + 5] == g.log[5 * i..5 * i + 5];
        }
      }
    }
  }

  /** Test metrics are never logged, and the log's steps never go back. */
  lemma {:induction false} LogStepsAscend(reports: seq<EpochReport>)
    ensures var log := HistoryOf(reports).log;
      && (forall j :: 0 <= j < |log| ==>
            && log[j].step < |reports|
            && log[j].tag in {"train/_loss", "val/_loss", "train/_acc", "val/_acc", "learning_rate"})
      && (forall i, j :: 0 <= i <= j < |log| ==> log[i].step <= log[j].step)
    decreases |reports|
  {
    if reports != [] {
      LogStepsAscend(reports[..|reports| - 1]);
      HistoryLockStep(reports[..|reports| - 1]);
    }
  }

  /** The loop completes no epoch when params['epochs'] <= 0, and otherwise
      at least one and at most params['epochs']: the stop tests run only once
      an epoch has completed. */
  lemma RunCompletedBounds(p: Params, reports: seq<EpochReport>)
    requires p.epochs <= |reports|
    ensures var v := Run(p, reports);
      && (p.epochs <= 0 ==> v == Verdict(0, EpochsExhausted))
      && (p.epochs >= 1 ==> 1 <= v.completed <= p.epochs)
  {
    if p.epochs >= 1 {
      RunFromBounds(p, reports, 0);
    }
  }

  lemma {:induction false} RunFromBounds(p: Params, reports: seq<EpochReport>, k: nat)
    requires p.epochs <= |reports| && k < p.epochs
    ensures k + 1 <= RunFrom(p, reports, k).completed <= p.epochs
    decreases |reports| - k
  {
    if StopTest(p, reports[k]).None? && k + 1 < p.epochs {
      RunFromBounds(p, reports, k + 1);
    }
  }

  /** Why the loop stopped, in terms of the reports: every epoch before the
      last passed both tests; a learning rate equal to min_lr passes; the
      time test stops the loop only when the learning-rate test did not. */
  lemma {:induction false} RunStopsAtFirstFailedTest(p: Params, reports: seq<EpochReport>, k: nat)
    requires p.epochs <= |reports| && k <= |reports|
    ensures var v := RunFrom(p, reports, k);
      && v.completed >= k
      && (forall i :: k <= i < v.completed - 1 ==>
            reports[i].lr >= p.minLr && reports[i].elapsed <= p.maxTimeHours * 3600.0)
      && (v.reason == LrBelowMin ==> v.completed > k && reports[v.completed - 1].lr < p.minLr)
      && (v.reason == TimeLimitExceeded ==>
            v.completed > k && reports[v.completed - 1].lr >= p.minLr &&
            reports[v.completed - 1].elapsed > p.maxTimeHours * 3600.0)
      && (v.reason == EpochsExhausted ==>
            && v.completed == (if p.epochs <= k then k else p.epochs)
            && (forall i :: k <= i < v.completed ==>
                  reports[i].lr >= p.minLr && reports[i].elapsed <= p.maxTimeHours * 3600.0))
    decreases |reports| - k
  {
    if k < p.epochs && StopTest(p, reports[k]).None? {
      RunStopsAtFirstFailedTest(p, reports, k + 1);
    }
  }

  /** Conversely, the first epoch to fail a test is the last one run, and a
      run in which no epoch fails one runs all params['epochs'] epochs. */
  lemma {:induction false} RunIsFirstFailedTest(p: Params, reports: seq<EpochReport>, n: nat)
    requires p.epochs <= |reports| && n <= |reports|
    requires forall i :: 0 <= i < n ==> StopTest(p, reports[i]).None?
    ensures n < p.epochs && StopTest(p, reports[n]).Some? ==>
              Run(p, reports) == Verdict(n + 1, StopTest(p, reports[n]).value)
    ensures n == p.epochs ==> Run(p, reports) == Verdict(n, EpochsExhausted)
  {
    var k := 0;
    while k < n && k < p.epochs
      invariant k <= n && k <= |reports|
      invariant RunFrom(p, reports, k) == Run(p, reports)
    {
      k := k + 1;
    }
  }

  /** With max_time = 0 the loop stops after its first epoch, on the time
      test, unless the learning rate is already below min_lr. */
  lemma ZeroTimeBudgetRunsOneEpoch(p: Params, reports: seq<EpochReport>)
    requires 1 <= p.epochs <= |reports| && p.maxTimeHours == 0.0
    requires reports[0].elapsed > 0.0 && reports[0].lr >= p.minLr
    ensures Run(p, reports) == Verdict(1, TimeLimitExceeded)
  {
  }

  /** With three epochs and no stop test firing the loop runs all three. */
  lemma ThreeEpochsRunToTheEnd(p: Params, reports: seq<EpochReport>)
    requires p.epochs == 3 <= |reports|
    requires forall i :: 0 <= i < 3 ==> reports[i].lr >= p.minLr && reports[i].elapsed <= p.maxTimeHours * 3600.0
    ensures Run(p, reports) == Verdict(3, EpochsExhausted)
  {
    RunIsFirstFailedTest(p, reports, 3);
  }

  /** train_val_pipeline's epoch loop (lines 92-130) over a checkpoint
      directory. An exception from save_checkpoint ends the run; it can come
      only from the first save, when the directory already holds an
      unreadable '.pkl' name. */
  method TrainValPipeline(p: Params, reports: seq<EpochReport>, ckpt: CheckpointDir)
    returns (h: History, outcome: RunOutcome)
    requires p.epochs <= |reports|
    modifies ckpt
    ensures outcome.SaveRaised? <==> p.epochs >= 1 && !AllReadable(ckpt.path, old(ckpt.entries))
    ensures outcome.SaveRaised? ==>
              && h == HistoryOf([])
              && outcome.name in ckpt.entries && Unreadable(ckpt.path, outcome.name)
              && Retained(ckpt.path, old(ckpt.entries) + {CheckpointName(0)}, 0) <= ckpt.entries
              && ckpt.entries <= old(ckpt.entries) + {CheckpointName(0)}
    ensures outcome.Stopped? ==>
              var v := Run(p, reports);
              && outcome.reason == v.reason
              && h == HistoryOf(reports[..v.completed])
              && ckpt.entries == AfterSaves(ckpt.path, old(ckpt.entries), v.completed)
  {
    var trainLosses, valLosses, trainAccs, valAccs, perEpochTime: seq<real> := [], [], [], [], [];
    var log: seq<Scalar> := [];
    var epoch: nat := 0;
    outcome := Stopped(EpochsExhausted);
    while epoch < p.epochs
      invariant epoch <= |reports|
      invariant RunFrom(p, reports, epoch) == Run(p, reports)
      invariant History(trainLosses, valLosses, trainAccs, valAccs, perEpochTime, log) == HistoryOf(reports[..epoch])
      invariant ckpt.entries == AfterSaves(ckpt.path, old(ckpt.entries), epoch)
      invariant epoch > 0 ==> AllReadable(ckpt.path, old(ckpt.entries))
      invariant outcome == Stopped(EpochsExhausted)
    {
      var r := reports[epoch];
      if epoch > 0 {
        AfterSavesReadable(ckpt.path, old(ckpt.entries), epoch);
      }
      var saved := ckpt.SaveCheckpoint(epoch);
      if saved.Raised? {
        h := History(trainLosses, valLosses, trainAccs, valAccs, perEpochTime, log);
        outcome := SaveRaised(saved.name);
        return;
      }
      assert reports[..epoch + 1][..epoch] == reports[..epoch];
      trainLosses := trainLosses + [r.trainLoss];
      valLosses := valLosses + [r.valLoss];
      trainAccs := trainAccs + [r.trainAcc];
      valAccs := valAccs + [r.valAcc];
      log := log + EpochScalars(epoch, r);
      perEpochTime := perEpochTime + [r.epochTime];
      if r.lr < p.minLr {
        outcome := Stopped(LrBelowMin);
        epoch := epoch + 1;
        break;
      }
      if r.elapsed > p.maxTimeHours * 3600.0 {
        outcome := Stopped(TimeLimitExceeded);
        epoch := epoch + 1;
        break;
      }
      epoch := epoch + 1;
    }
    h := History(trainLosses, valLosses, trainAccs, valAccs, perEpochTime, log);
  }
}
