/** What the epoch loop decided, read off the whole history of a run: the
    convergence control, the stop rule and the early-stopping selection. */
module EarlyStopping {
  import opened Options
  import opened Words
  import opened Schedule
  import opened Training

  // ---------- the stop rule ----------

  /** The objectives of the first k epochs of a run. */
  function Objectives<M, V>(env: Env<M, V>, start: Run<M, V>, target: Word, k: nat): (metrics: seq<real>)
    requires RunAt(env, start, target, k).Some?
    ensures |metrics| == k
  {
    if k == 0 then
      []
    else
      Objectives(env, start, target, k - 1) + [env.objective(RunAt(env, start, target, k).value.model).value]
  }

  /** The objective of each epoch is that of the model it ended with. */
  lemma {:induction false} ObjectivesAre<M, V>(env: Env<M, V>, start: Run<M, V>, target: Word, k: nat, j: nat)
    requires 0 < j <= k && RunAt(env, start, target, k).Some?
    ensures RunAt(env, start, target, j).Some?
    ensures env.objective(RunAt(env, start, target, j).value.model)
         == Some(Objectives(env, start, target, k)[j - 1])
  {
    EarlierStates(env, start, target, k, j);
    EpochObserves(env, start, target, k);
    if j < k {
      ObjectivesAre(env, start, target, k - 1, j);
    }
  }

  lemma EpochObserves<M, V>(env: Env<M, V>, start: Run<M, V>, target: Word, k: nat)
    requires k > 0 && RunAt(env, start, target, k).Some?
    ensures RunAt(env, start, target, k - 1).Some?
    ensures var before, r := RunAt(env, start, target, k - 1).value, RunAt(env, start, target, k).value;
            && env.objective(r.model).Some?
            && Observe(env.settings, before.control, env.objective(r.model).value) == Some(r.control)
  {
    hide Observe;
  }

  /** The control of a run that began fresh is a function of its objectives. */
  lemma {:induction false} ControlIsHistory<M, V>(env: Env<M, V>, start: Run<M, V>, target: Word, k: nat)
    requires start.control == Fresh(env.settings) && RunAt(env, start, target, k).Some?
    ensures ObserveAll(env.settings, Objectives(env, start, target, k))
         == Some(RunAt(env, start, target, k).value.control)
  {
    if k > 0 {
      EpochObserves(env, start, target, k);
      ControlIsHistory(env, start, target, k - 1);
      var metrics := Objectives(env, start, target, k);
      assert metrics[..k - 1] == Objectives(env, start, target, k - 1);
      assert metrics[k - 1] == env.objective(RunAt(env, start, target, k).value.model).value;
      hide RunAt, Observe, Objectives;
    }
  }

  /** The k-th epoch of a run that began fresh applies every batch once, in order,
      at the rate that the objectives before it leave. */
  lemma EpochTrains<M, V>(env: Env<M, V>, start: Run<M, V>, target: Word, k: nat) returns (trace: seq<(M, V)>)
    requires start.control == Fresh(env.settings) && k > 0 && RunAt(env, start, target, k).Some?
    ensures RunAt(env, start, target, k - 1).Some?
    ensures ObserveAll(env.settings, Objectives(env, start, target, k - 1)).Some?
    ensures var before, r := RunAt(env, start, target, k - 1).value, RunAt(env, start, target, k).value;
            var rate := ObserveAll(env.settings, Objectives(env, start, target, k - 1)).value.rate;
            && BatchTrace(env, rate, start.epoch + k - 1, 0, trace)
            && trace[0] == (before.model, before.moments) && trace[env.batches] == (r.model, r.moments)
  {
    var before, r := RunAt(env, start, target, k - 1).value, RunAt(env, start, target, k).value;
    EpochUpdates(env, before);
    hide NextEpoch;
    ControlIsHistory(env, start, target, k - 1);
    if k > 1 {
      RunAtIsOnTheWay(env, start, target, k - 1);
    }
    hide RunAt, Objectives, ObserveAll, BatchTrace, Updates;
    trace := UpdatesTrace(env, before.model, before.moments, before.control.rate, before.epoch, 0);
  }

  lemma EpochUpdates<M, V>(env: Env<M, V>, r: Run<M, V>)
    requires r.epoch < SIZE_MAX && NextEpoch(env, r).Some?
    ensures var next := NextEpoch(env, r).value;
            Updates(env, r.model, r.moments, r.control.rate, r.epoch, 0) == Some((next.model, next.moments))
  {
    hide Updates, Observe;
  }

  /** A finished loop ended in a state of the run. */
  lemma {:induction false} LoopEndsOnTheWay<M, V>(env: Env<M, V>, start: Run<M, V>, target: Word, k: nat)
    returns (last: nat)
    requires RunAt(env, start, target, k).Some?
    requires var r := RunAt(env, start, target, k).value;
             r.epoch < target && (k > 0 ==> Verdict(env, r, target).None?) && Loop(env, r, target).Finished?
    ensures var outcome := Loop(env, RunAt(env, start, target, k).value, target);
            && last > k && RunAt(env, start, target, last) == Some(outcome.run)
            && Verdict(env, outcome.run, target) == Some(outcome.completion)
    decreases target - RunAt(env, start, target, k).value.epoch
  {
    var r := RunAt(env, start, target, k).value;
    var next := NextEpoch(env, r).value;
    NextEpochCounts(env, r);
    assert RunAt(env, start, target, k + 1) == Some(next);
    if Verdict(env, next, target).Some? {
      last := k + 1;
    } else {
      last := LoopEndsOnTheWay(env, start, target, k + 1);
    }
  }

  /** A run has not been told to stop at any epoch it went past. */
  lemma {:induction false} PassedEpochs<M, V>(env: Env<M, V>, start: Run<M, V>, target: Word, k: nat, j: nat)
    requires 0 < j < k && RunAt(env, start, target, k).Some?
    ensures RunAt(env, start, target, j).Some?
    ensures Verdict(env, RunAt(env, start, target, j).value, target).None?
  {
    if j < k - 1 {
      PassedEpochs(env, start, target, k - 1, j);
    }
  }

  lemma {:induction false} EarlierStates<M, V>(env: Env<M, V>, start: Run<M, V>, target: Word, k: nat, j: nat)
    requires j <= k && RunAt(env, start, target, k).Some?
    ensures RunAt(env, start, target, j).Some?
  {
    if j < k {
      EarlierStates(env, start, target, k - 1, j);
    }
  }

  /** Training without early stopping ends at the first epoch at which the
      history of objectives says so, and the target epoch takes precedence over
      every other reason. */
  lemma TrainingStopsByHistory<M, V>(env: Env<M, V>, model: M, epoch: Word, target: Word) returns (k: nat)
    requires env.settings.Valid() && env.patience == 0 && epoch < target
    requires Train(env, Begin(env, model, epoch, None), target).Finished?
    ensures var start := Begin(env, model, epoch, None);
            var outcome := Train(env, start, target);
            && 0 < k == outcome.run.epoch - epoch && RunAt(env, start, target, k) == Some(outcome.run)
            && (forall j | 0 < j < k ::
                  && epoch + j < target && RunAt(env, start, target, j).Some?
                  && StopReason(env.settings, Objectives(env, start, target, j)) == NoReason)
            && var o, metrics := env.settings, Objectives(env, start, target, k);
               var good := o.targetLoss >= 0.0 && metrics[k - 1] <= o.targetLoss;
               var idle := o.noImprovementEpochs != 0
                           && k - 1 - LastImprovement(metrics, o.noImprovementMinDelta) >= o.noImprovementEpochs;
               if epoch + k == target then outcome.completion == TargetEpochs
               else (good || idle) && outcome.completion == if good then LossTargetReached else NoImprovementReached
  {
    var start := Begin(env, model, epoch, None);
    k := LoopEndsOnTheWay(env, start, target, 0);
    RunAtIsOnTheWay(env, start, target, k);
    forall j | 0 < j < k
      ensures epoch + j < target && RunAt(env, start, target, j).Some?
      ensures StopReason(env.settings, Objectives(env, start, target, j)) == NoReason
    {
      PassedEpochs(env, start, target, k, j);
      RunAtIsOnTheWay(env, start, target, j);
      StopReasonIsVerdict(env, start, target, j);
    }
    StopReasonIsVerdict(env, start, target, k);
  }

  /** The recorded reason at epoch k is the one the history dictates. */
  lemma StopReasonIsVerdict<M, V>(env: Env<M, V>, start: Run<M, V>, target: Word, k: nat)
    requires env.settings.Valid() && env.patience == 0 && start.control == Fresh(env.settings)
    requires k > 0 && RunAt(env, start, target, k).Some?
    ensures RunAt(env, start, target, k).value.control.reason
         == StopReason(env.settings, Objectives(env, start, target, k))
  {
    var metrics := Objectives(env, start, target, k);
    EarlierStates(env, start, target, k, k - 1);
    assert metrics[..k - 1] == Objectives(env, start, target, k - 1);
    ControlIsHistory(env, start, target, k);
    ControlIsHistory(env, start, target, k - 1);
    if k > 1 {
      PassedEpochs(env, start, target, k, k - 1);
    }
    ReasonFollowsHistory(env.settings, metrics);
  }

  // ---------- model selection ----------

  /** The validation losses the selection compares: the baseline's, if the run
      refines one, then one per epoch. */
  function Losses<M, V>(env: Env<M, V>, start: Run<M, V>, target: Word, k: nat): (losses: seq<real>)
    requires env.patience != 0 && RunAt(env, start, target, k).Some?
    ensures |losses| == Candidates(start, k)
  {
    if k == 0 then
      if start.best.Some? then [start.best.value.loss] else []
    else
      Losses(env, start, target, k - 1) + [env.validation(RunAt(env, start, target, k).value.model).value]
  }

  function Candidates<M, V>(start: Run<M, V>, k: nat): nat {
    if start.best.Some? then k + 1 else k
  }

  /** The snapshot behind the i-th validation loss. */
  function Snapshot<M, V>(env: Env<M, V>, start: Run<M, V>, target: Word, i: nat): Option<Best<M>> {
    if start.best.Some? && i == 0 then
      start.best
    else
      match RunAt(env, start, target, if start.best.Some? then i else i + 1)
      case None => None
      case Some(r) =>
        match env.validation(r.model)
        case None => None
        case Some(loss) => Some(Best(loss, r.epoch, r.model))
  }

  /** What one epoch does to the selection. */
  lemma EpochSelects<M, V>(env: Env<M, V>, start: Run<M, V>, target: Word, k: nat)
    requires env.patience != 0 && k > 0 && RunAt(env, start, target, k).Some?
    ensures RunAt(env, start, target, k - 1).Some?
    ensures var before, r := RunAt(env, start, target, k - 1).value, RunAt(env, start, target, k).value;
            && env.validation(r.model).Some?
            && var loss := env.validation(r.model).value;
               if before.best.None? || before.best.value.loss - loss > env.minDelta
               then r.best == Some(Best(loss, r.epoch, r.model)) && r.stale == 0
               else r.best == before.best && r.stale == before.stale + 1
  {
  }

  /** The selection is the last loss that beat the one selected before it by more
      than the margin, as the history alone defines it; no loss beats it by more
      than the margin, and the stale count is the number of losses since. */
  ghost predicate SelectedByHistory<M, V>(env: Env<M, V>, start: Run<M, V>, target: Word, r: Run<M, V>,
                                          losses: seq<real>)
    requires losses != []
  {
    var at := LastImprovement(losses, env.minDelta);
    && r.best.Some? && r.best == Snapshot(env, start, target, at)
    && r.best.value.loss == losses[at]
    && Unbeaten(losses, env.minDelta, losses[at])
    && r.stale == |losses| - 1 - at
  }

  lemma {:induction false} SelectionIsHistory<M, V>(env: Env<M, V>, start: Run<M, V>, target: Word, k: nat)
    requires env.patience != 0 && env.minDelta >= 0.0 && start.stale == 0
    requires Candidates(start, k) > 0 && RunAt(env, start, target, k).Some?
    ensures SelectedByHistory(env, start, target, RunAt(env, start, target, k).value, Losses(env, start, target, k))
  {
    if k > 0 {
      var losses := Losses(env, start, target, k);
      EpochSelects(env, start, target, k);
      LossesGrow(env, start, target, k);
      var before, r := RunAt(env, start, target, k - 1).value, RunAt(env, start, target, k).value;
      if Candidates(start, k) > 1 {
        SelectionIsHistory(env, start, target, k - 1);
        SelectionGrows(env, start, target, before, r, losses);
      } else {
        assert k == 1 && RunAt(env, start, target, 0) == Some(start);
      }
    } else {
      assert RunAt(env, start, target, 0) == Some(start);
    }
  }

  lemma LossesGrow<M, V>(env: Env<M, V>, start: Run<M, V>, target: Word, k: nat)
    requires env.patience != 0 && k > 0 && RunAt(env, start, target, k).Some?
    ensures env.validation(RunAt(env, start, target, k).value.model).Some?
    ensures var losses, loss := Losses(env, start, target, k),
        env.validation(RunAt(env, start, target, k).value.model).value;
            && losses[..|losses| - 1] == Losses(env, start, target, k - 1) && losses[|losses| - 1] == loss
            && Snapshot(env, start, target, |losses| - 1)
               == Some(Best(loss, RunAt(env, start, target, k).value.epoch, RunAt(env, start, target, k).value.model))
  {
    EpochSelects(env, start, target, k);
    hide NextEpoch, Watched;
  }

  lemma SelectionGrows<M, V>(env: Env<M, V>, start: Run<M, V>, target: Word, before: Run<M, V>, r: Run<M, V>,
                             losses: seq<real>)
    requires env.minDelta >= 0.0 && |losses| > 1
    requires SelectedByHistory(env, start, target, before, losses[..|losses| - 1])
    requires var loss := losses[|losses| - 1];
             if before.best.value.loss - loss > env.minDelta
             then r.best == Snapshot(env, start, target, |losses| - 1) && r.best.Some? && r.best.value.loss == loss
                  && r.stale == 0
             else r.best == before.best && r.stale == before.stale + 1
    ensures SelectedByHistory(env, start, target, r, losses)
  {
    ImprovementGrows(losses, env.minDelta);
    hide LastImprovement, Snapshot, Unbeaten;
  }

  // ---------- finalization ----------

  /** What an early-stopping run installs. */
  datatype Install<M> = NotInstalled | Installed(model: M, completed: nat, selected: nat, target: nat,
                                                 reason: Completion)

  function Finalize<M, V>(env: Env<M, V>, outcome: Outcome<M, V>, target: Word): Install<M> {
    match outcome
    case Failed => NotInstalled
    case Finished(r, reason) =>
      match r.best
      case None => NotInstalled
      case Some(best) =>
        if env.objective(best.model).Some? && SaverAccepts(r.epoch, best.epoch, target, reason)
        then Installed(best.model, r.epoch, best.epoch, target, reason)
        else NotInstalled
  }

  /** An early-stopping run starts from nothing at epoch 0 or from a selected
      baseline. */
  ghost predicate Startable<M, V>(start: Run<M, V>) {
    && start.stale == 0 && start.control.reason == NoReason
    && (start.best.None? ==> start.epoch == 0)
    && (start.best.Some? ==> 0 < start.best.value.epoch <= start.epoch)
  }

  lemma {:induction false} BestEpochIsInRange<M, V>(env: Env<M, V>, start: Run<M, V>, target: Word, k: nat)
    requires env.patience != 0 && Startable(start) && k > 0 && RunAt(env, start, target, k).Some?
    ensures var r := RunAt(env, start, target, k).value;
            r.best.Some? && 0 < r.best.value.epoch <= r.epoch && r.stale <= k
  {
    if k > 1 {
      BestEpochIsInRange(env, start, target, k - 1);
    }
  }

  /** Whatever the run was, what gets installed is the snapshot taken at the
      recorded best epoch; and a finished run is refused by the saver exactly
      when it stopped early on the target epoch itself (or when the objective of
      the selected model, which is evaluated once more, is not finite). */
  lemma InstalledIsTheSelection<M, V>(env: Env<M, V>, start: Run<M, V>, target: Word) returns (k: nat, at: nat)
    requires env.patience != 0 && env.minDelta >= 0.0 && Startable(start) && start.epoch < target
    requires Train(env, start, target).Finished?
    ensures RunAt(env, start, target, k) == Some(Train(env, start, target).run)
    ensures var losses := Losses(env, start, target, k);
            && losses != [] && at == LastImprovement(losses, env.minDelta)
            && Snapshot(env, start, target, at) == Train(env, start, target).run.best
            && Unbeaten(losses, env.minDelta, losses[at])
            && (Train(env, start, target).completion == StoppedEarly <==> |losses| - 1 - at >= env.patience)
    ensures var outcome := Train(env, start, target);
            var installed := Finalize(env, outcome, target);
            && outcome.run.best.Some?
            && (installed == NotInstalled <==> (outcome.completion == StoppedEarly && outcome.run.epoch == target)
                                               || env.objective(outcome.run.best.value.model).None?)
            && (installed != NotInstalled ==>
                  Snapshot(env, start, target, at)
                  == Some(Best(Losses(env, start, target, k)[at], installed.selected, installed.model)))
  {
    k := LoopEndsOnTheWay(env, start, target, 0);
    RunAtIsOnTheWay(env, start, target, k);
    SelectionIsHistory(env, start, target, k);
    BestEpochIsInRange(env, start, target, k);
    at := LastImprovement(Losses(env, start, target, k), env.minDelta);
  }

  /** The refusal does not last: resuming the checkpoint that such a run leaves
      behind installs the very model it selected. */
  lemma RefusalHealsOnResume<M, V>(env: Env<M, V>, start: Run<M, V>, target: Word)
    requires env.patience != 0 && env.minDelta >= 0.0 && Startable(start) && start.epoch < target
    requires Train(env, start, target).Finished? && Train(env, start, target).completion == StoppedEarly
    requires Train(env, start, target).run.epoch == target && Train(env, start, target).run.best.Some?
    requires env.objective(Train(env, start, target).run.best.value.model).Some?
    ensures var r := Train(env, start, target).run;
            var resumed := Train(env, Restore(env, Save(env, r, target)), target);
            Finalize(env, resumed, target)
            == Installed(r.best.value.model, target, r.best.value.epoch, target, TargetEpochs)
  {
    var k, at := InstalledIsTheSelection(env, start, target);
    RunAtIsOnTheWay(env, start, target, k);
    BestEpochIsInRange(env, start, target, k);
  }

  /** The case occurs: a model that never improves, with patience one, stops
      early on its second epoch, and the second epoch is the target. */
  lemma StoppingOnTheTargetIsRefused() returns (env: Env<int, int>)
    ensures env.patience == 1
    ensures Train(env, Begin(env, 0, 0, None), 2).Finished?
    ensures Finalize(env, Train(env, Begin(env, 0, 0, None), 2), 2) == NotInstalled
  {
    var settings := Settings(GradientDescent, 1.0, Constant, 1.0, 0, 0, 0.0, 0.0, -1.0, 0, 0.0);
    env := Env(settings, 1, (m, v, rate, epoch, batch) => Some((m + 1, v)), m => Some(1.0), m => Some(1.0),
               1, 0.0, 0);
    var start := Begin(env, 0, 0, None);
    assert Updates(env, 0, 0, 1.0, 0, 0) == Updates(env, 1, 0, 1.0, 0, 1) == Some((1, 0));
    var first := NextEpoch(env, start).value;
    assert Updates(env, 1, 0, 1.0, 1, 0) == Updates(env, 2, 0, 1.0, 1, 1) == Some((2, 0));
    assert first.model == 1 && first.best == Some(Best(1.0, 1, 1));
    var second := NextEpoch(env, first).value;
    assert second.stale == 1 && second.epoch == 2;
    assert Loop(env, first, 2) == Finished(second, StoppedEarly);
    assert Loop(env, start, 2) == Loop(env, first, 2);
  }
}
