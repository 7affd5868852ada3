/** The metadata of installed weights, and which refinements it allows. */
module Finalization {
  import opened Options
  import opened Words
  import opened Schedule
  import opened Training
  import opened EarlyStopping
  import opened Project
  import opened Recovery
  import opened Campaigns
  import Refusals

  // ---------- what is installed ----------

  /** The weights of a run without early stopping: its last model and epoch, and
      format version 1 exactly if it reached its target. */
  ghost predicate LastModelOf<M, V>(w: Weights<M>, r: Run<M, V>, reason: Completion, target: Word) {
    && w.model == r.model && w.completed == w.selected == r.epoch
    && w.target == target && w.reason == reason
    && (w.completed == target <==> reason == TargetEpochs)
    && w.version == if w.completed == target then 1 else 2
  }

  lemma FixedWeights<M(!new), V(!new)>(env: Env<M, V>, start: Run<M, V>, target: Word)
    requires ValidEnv(env) && env.patience == 0 && Sound(env, start) && start.control.reason == NoReason
    requires start.epoch < target && Train(env, start, target).Finished?
    ensures var outcome := Train(env, start, target);
            && WeightsOf(env, outcome, target).Some?
            && LastModelOf(WeightsOf(env, outcome, target).value, outcome.run, outcome.completion, target)
  {
    FinishedRun(env, start, target);
    hide Train;
  }

  /** With early stopping: the selected model, its epoch, the epochs trained, and
      always format version 2; the exact condition under which nothing is
      installed. */
  lemma EarlyWeights<M, V>(env: Env<M, V>, start: Run<M, V>, target: Word)
    requires env.patience != 0 && env.minDelta >= 0.0 && Startable(start) && start.epoch < target
    requires Train(env, start, target).Finished?
    ensures var outcome := Train(env, start, target);
            outcome.run.best.Some?
            && SelectionOf(env, WeightsOf(env, outcome, target), outcome.run, outcome.completion, target)
  {
    var k, at := InstalledIsTheSelection(env, start, target);
    hide Train, RunAt;
  }

  ghost predicate SelectionOf<M, V>(env: Env<M, V>, weights: Option<Weights<M>>, r: Run<M, V>, reason: Completion,
                                    target: Word)
    requires r.best.Some?
  {
    var best := r.best.value;
    && (weights.None? <==> (reason == StoppedEarly && r.epoch == target) || env.objective(best.model).None?)
    && (weights.Some? ==>
          var w := weights.value;
          && w.model == best.model && w.selected == best.epoch && w.completed == r.epoch
          && w.target == target && w.reason == reason && w.version == 2)
  }

  // ---------- what a refinement starts from ----------

  /** A refinement starts from the final weights, counts on from their epochs with
      fresh optimizer state, and under early stopping defends their selection. */
  lemma RefinementStart<M, V>(env: Env<M, V>, plan: Plan<M>, w: Weights<M>)
    requires 0 < w.completed && (env.patience != 0 ==> env.validation(w.model).Some?)
    ensures StartFrom(env, plan, Some(w)).Some?
    ensures var start := StartFrom(env, plan, Some(w)).value;
            && start.model == w.model && start.epoch == w.completed && start.stale == 0
            && start.moments == env.freshMoments && start.control == Fresh(env.settings)
            && start.best == if env.patience == 0 then None
                             else Some(Best(env.validation(w.model).value, w.selected, w.model))
  {
  }

  /** No epoch of the range beats the given validation loss by more than the margin. */
  ghost predicate NeverBeaten<M(!new), V(!new)>(env: Env<M, V>, start: Run<M, V>, target: Word, loss: real) {
    forall k :: k > 0 && RunAt(env, start, target, k).Some? ==>
      var later := env.validation(RunAt(env, start, target, k).value.model);
      later.Some? ==> loss - later.value <= env.minDelta
  }

  lemma {:induction false} BestStays<M(!new), V(!new)>(env: Env<M, V>, start: Run<M, V>, target: Word, k: nat)
    requires env.patience != 0 && start.best.Some? && NeverBeaten(env, start, target, start.best.value.loss)
    requires RunAt(env, start, target, k).Some?
    ensures RunAt(env, start, target, k).value.best == start.best
  {
    if k > 0 {
      BestStays(env, start, target, k - 1);
    }
  }

  /** A refinement that never improves on its baseline changes neither the model nor
      its selected epoch; only the count of trained epochs grows. */
  lemma UnimprovedRefinement<M(!new), V(!new)>(env: Env<M, V>, plan: Plan<M>, w: Weights<M>, target: Word)
    requires ValidEnv(env) && env.patience != 0 && env.validation(w.model).Some?
    requires 0 < w.selected <= w.completed < target
    requires var start := StartFrom(env, plan, Some(w)).value;
             NeverBeaten(env, start, target, env.validation(w.model).value) && Train(env, start, target).Finished?
    ensures var outcome := Train(env, StartFrom(env, plan, Some(w)).value, target);
            var weights := WeightsOf(env, outcome, target);
            weights.Some? ==>
              && weights.value.model == w.model && weights.value.selected == w.selected
              && weights.value.completed == outcome.run.epoch > w.completed
  {
    RefinementStart(env, plan, w);
    var start := StartFrom(env, plan, Some(w)).value;
    EarlyWeights(env, start, target);
    var last := LoopEndsOnTheWay(env, start, target, 0);
    BestStays(env, start, target, last);
    RunAtIsOnTheWay(env, start, target, last);
    hide Loop, RunAt, WeightsOf, NeverBeaten;
  }

  // ---------- further refinement ----------

  /** The last refinement reached its target below the configured epochs. */
  ghost predicate Undershot<M, V>(env: Env<M, V>, plan: Plan<M>, history: seq<Word>) {
    && history != [] && FinalWeights(env, plan, history).Some?
    && FinalWeights(env, plan, history).value.completed == history[|history| - 1] < plan.epochs
  }

  /** Refinement is refused without epochs, weights or room, with a checkpoint, and
      after a refinement that reached its target below the configured epochs; in
      every other case it is accepted. */
  lemma RefinementIsRefusedIff<M(!new), V(!new)>(env: Env<M, V>, plan: Plan<M>, history: seq<Word>, disk: Disk<M, V>,
                                                 count: Word, stop: nat -> bool)
    requires Plain(env, plan) && Recoverable(env, plan, history, disk)
    ensures Execute(env, plan, disk, TrainAdditional(count, stop)).result == Refused
            <==> (count == 0 || disk.checkpoint.Some? || disk.weights.None?
                  || disk.weights.value.completed + count > SIZE_MAX || Undershot(env, plan, history))
  {
    if disk.weights.Some? {
      LastWeights(env, plan, history);
    }
    hide Recoverable, Lineage, FinalWeights, StartFrom, TrailOf, Perform;
  }

  lemma LastWeights<M(!new), V(!new)>(env: Env<M, V>, plan: Plan<M>, history: seq<Word>)
    requires Plain(env, plan) && Lineage(env, plan, history) && FinalWeights(env, plan, history).Some?
    ensures history != []
    ensures var w := FinalWeights(env, plan, history).value;
            w.version == if w.completed == history[|history| - 1] then 1 else 2
  {
    var n := |history| - 1;
    var base := Base(env, plan, history[..n]);
    BaseIsFresh(env, plan, history[..n]);
    FixedWeights(env, base, history[n]);
    hide Train, WeightsOf;
  }

  /** No command is accepted any more. */
  ghost predicate Stuck<M(!new), V(!new)>(env: Env<M, V>, plan: Plan<M>, disk: Disk<M, V>) {
    forall command :: Execute(env, plan, disk, command).result == Refused
  }

  /** Finalized weights without a checkpoint can always be refined, but for an epoch
      counter at its limit and the refinement that fell short of the plan. */
  lemma StuckIff<M(!new), V(!new)>(env: Env<M, V>, plan: Plan<M>, history: seq<Word>, disk: Disk<M, V>)
    requires Plain(env, plan) && Recoverable(env, plan, history, disk)
    requires disk.weights.Some? && disk.checkpoint.None?
    ensures Stuck(env, plan, disk) <==> (disk.weights.value.completed == SIZE_MAX || Undershot(env, plan, history))
  {
    hide Recoverable, Undershot;
    RefinementIsRefusedIff(env, plan, history, disk, 1, Never());
    forall command
      ensures Execute(env, plan, disk, command).result != Refused ==>
                command.TrainAdditional? && disk.weights.value.completed < SIZE_MAX && !Undershot(env, plan, history)
    {
      match command
      case TrainAdditional(count, stop) => RefinementIsRefusedIff(env, plan, history, disk, count, stop);
      case _ =>
    }
    hide Execute;
    if Stuck(env, plan, disk) {
      assert Execute(env, plan, disk, TrainAdditional(1, Never())).result == Refused;
    }
  }

  /** And a campaign can end there: a run that converges early is refined by one
      epoch. */
  lemma RefinementCanEndStuck() returns (env: Env<int, int>, plan: Plan<int>, events: seq<Event>)
    ensures Plain(env, plan) && |events| == 2
    ensures var disk := Left(env, plan, events); disk.weights.Some? && disk.checkpoint.None? && Stuck(env, plan, disk)
  {
    env := Refusals.ConvergingEnv();
    plan := Plan(0, 3, 0);
    var first, second := Event(TrainFresh(Never()), 2), Event(TrainAdditional(1, Never()), 2);
    var converged, short := Weights(1, 1, 1, 3, LossTargetReached, 2), Weights(2, 2, 2, 2, TargetEpochs, 1);
    var next := Refusals.ConvergingEpoch(env, 0, 0);
    OneEpoch(env, plan, Disk(None, None), Begin(env, 0, 0, None), 3, next, LossTargetReached, converged);
    next := Refusals.ConvergingEpoch(env, 1, 1);
    OneEpoch(env, plan, Disk(Some(converged), None), Begin(env, 1, 1, None), 2, next, TargetEpochs, short);
    events := [first, second];
    LeftStep(env, plan, [], first);
    LeftStep(env, plan, [first], second);
    assert [] + [first] == [first] && [first] + [second] == events;
    hide Perform, TrailOf, NextEpoch;
  }

  /** A range of one epoch, without checkpoints. */
  lemma OneEpoch<M, V>(env: Env<M, V>, plan: Plan<M>, disk: Disk<M, V>, start: Run<M, V>, target: Word,
                       next: Run<M, V>, completion: Completion, w: Weights<M>)
    requires env.patience == 0 && plan.interval == 0 && start.epoch < target && start.control.reason == NoReason
    requires NextEpoch(env, start) == Some(next) && Verdict(env, next, target) == Some(completion)
    requires WeightsOf(env, Finished(next, completion), target) == Some(w)
    ensures Perform(env, disk, TrailOf(env, 0, Never(), start, target), target)
         == Effect(Completed, [Disk(Some(w), disk.checkpoint), Disk(Some(w), None)])
  {
    CheckpointedNothing<M, V>(disk.weights);
    hide NextEpoch, Verdict;
  }
}
