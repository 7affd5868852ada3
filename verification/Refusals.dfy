/** Where recovery ends: which leftovers resume refuses, and what it makes of those
    that it accepts although their run had already stopped early. */
module Refusals {
  import opened Options
  import opened Words
  import opened Schedule
  import opened Training
  import opened EarlyStopping
  import opened Project
  import opened Recovery
  import opened Campaigns

  // ---------- convergence ----------

  /** With convergence controls on, the exemption for early weights is missing: a
      crash between installing converged weights and removing the checkpoint leaves
      a disk that resume refuses. */
  lemma ConvergedWeightsCanBlockResume() returns (env: Env<int, int>, plan: Plan<int>, event: Event)
    ensures Plain(env, plan)
    ensures var disk := Left(env, plan, [event]);
            disk.checkpoint.Some? && ResumeDecision(env, plan, disk) == Refuse
  {
    env := ConvergingEnv();
    plan := Plan(0, 2, 1);
    event := Event(TrainFresh(Never()), 2);
    var base := Begin(env, 0, 0, None);
    var next := ConvergingEpoch(env, 0, 0);
    var ck := Save(env, next, 2);
    TrailStep(env, 1, Never(), base, 2, []);
    hide NextEpoch, TrailFrom;
    var trail := TrailOf(env, 1, Never(), base, 2);
    assert trail == Trail([ck], Ended(Finished(next, LossTargetReached)));
    Executed(env, plan, trail, ck, Weights(1, 1, 1, 2, LossTargetReached, 2));
    hide TrailOf, FreshEffect;
    LeftStep(env, plan, [], event);
    assert [] + [event] == [event];
  }

  /** A model that counts its updates and is good enough at once. */
  function ConvergingEnv(): Env<int, int> {
    Env(Settings(GradientDescent, 1.0, Constant, 1.0, 0, 0, 0.0, 0.0, 1.0, 0, 0.0), 1,
        (m, v, rate, epoch, batch) => Some((m + 1, v)), m => Some(1.0), m => Some(1.0), 0, 0.0, 0)
  }

  lemma ConvergingEpoch(env: Env<int, int>, m: int, epoch: Word) returns (next: Run<int, int>)
    requires env == ConvergingEnv() && epoch < SIZE_MAX
    ensures NextEpoch(env, Begin(env, m, epoch, None)) == Some(next)
    ensures next.control.reason == LossTarget && next.epoch == epoch + 1 && next.model == m + 1 && next.stale == 0
  {
    assert Updates(env, m, 0, 1.0, epoch, 0) == Updates(env, m + 1, 0, 1.0, epoch, 1) == Some((m + 1, 0));
    next := NextEpoch(env, Begin(env, m, epoch, None)).value;
  }

  lemma Executed<M, V>(env: Env<M, V>, plan: Plan<M>, trail: Trail<M, V>, ck: Saved<M, V>, w: Weights<M>)
    requires trail == TrailOf(env, plan.interval, Never(), Begin(env, plan.initial, 0, None), plan.epochs)
    requires trail.saves == [ck] && trail.end.Ended? && WeightsOf(env, trail.end.outcome, plan.epochs) == Some(w)
    ensures FreshEffect(env, plan, Disk(None, None), Never())
         == Effect(Completed, [Disk(None, Some(ck)), Disk(Some(w), Some(ck)), Disk(Some(w), None)])
  {
    assert Checkpointed<M, V>(None, [ck]) == [Disk(None, Some(ck))] by {
      assert [ck][..0] == [];
    }
  }

  // ---------- early stopping ----------

  lemma CommandTrainsRange<M, V>(env: Env<M, V>, plan: Plan<M>, disk: Disk<M, V>, command: Command)
    requires env.patience != 0 && Execute(env, plan, disk, command).result == Completed
    ensures RangeOf(env, plan, disk, command).Some?
    ensures var (start, target) := RangeOf(env, plan, disk, command).value;
            && Execute(env, plan, disk, command)
               == Perform(env, disk, TrailOf(env, plan.interval, command.stop, start, target), target)
            && (disk.checkpoint.Some? ==> disk.checkpoint.value.epoch <= start.epoch)
  {
    hide Perform, TrailOf;
  }

  /** The last state but one: weights installed, checkpoint not yet removed. */
  function BeforeRemoval<M, V>(effect: Effect<M, V>): Disk<M, V>
    requires |effect.states| >= 2
  {
    effect.states[|effect.states| - 2]
  }

  /** The run whose end a completed range installs. */
  lemma CompletedRange<M, V>(env: Env<M, V>, disk: Disk<M, V>, trail: Trail<M, V>, target: Word)
    requires Perform(env, disk, trail, target).result == Completed
    ensures trail.end.Ended? && trail.end.outcome.Finished? && WeightsOf(env, trail.end.outcome, target).Some?
    ensures |Perform(env, disk, trail, target).states| >= 2
    ensures BeforeRemoval(Perform(env, disk, trail, target))
         == Disk(WeightsOf(env, trail.end.outcome, target), LastCheckpoint(disk, trail.saves))
  {
    hide LastCheckpoint;
  }

  /** The range ended in the given run, after at least one epoch of training. */
  ghost predicate EndsIn<M, V>(env: Env<M, V>, interval: Word, stop: nat -> bool, start: Run<M, V>, target: Word,
                               r: Run<M, V>)
  {
    && start.epoch < target && start.control.reason == NoReason
    && var trail := TrailOf(env, interval, stop, start, target);
       trail.end.Ended? && trail.end.outcome.Finished? && trail.end.outcome.run == r
  }

  /** With early stopping, whatever range was trained on whatever files: a crash
      right before the removal of the checkpoint leaves one that resume refuses
      exactly if the range trained at all and its last epoch was not one to save. */
  lemma EarlyLeftoverIsRefusedIff<M, V>(env: Env<M, V>, plan: Plan<M>, disk: Disk<M, V>, stop: nat -> bool,
                                        start: Run<M, V>, target: Word)
    requires env.patience != 0
    requires disk.checkpoint.Some? ==> disk.checkpoint.value.epoch <= start.epoch
    requires start.epoch >= target || start.control.reason != NoReason ==>
               disk.checkpoint.Some? && disk.checkpoint.value.epoch == start.epoch
    requires var effect := Perform(env, disk, TrailOf(env, plan.interval, stop, start, target), target);
             effect.result == Completed && BeforeRemoval(effect).checkpoint.Some?
    ensures var effect := Perform(env, disk, TrailOf(env, plan.interval, stop, start, target), target);
            ResumeDecision(env, plan, BeforeRemoval(effect)) == Refuse
            <==> exists r :: EndsIn(env, plan.interval, stop, start, target, r)
                             && !ShouldSave(env, plan.interval, stop, r)
  {
    var trail := TrailOf(env, plan.interval, stop, start, target);
    CompletedRange(env, disk, trail, target);
    var r := trail.end.outcome.run;
    if start.epoch < target && start.control.reason == NoReason {
      LastSave(env, plan.interval, stop, start, target);
      assert EndsIn(env, plan.interval, stop, start, target, r);
    }
    hide TrailFrom, ShouldSave, Loop, Perform;
  }

  /** The same for the three commands. */
  lemma EarlyCutIsRefusedIff<M, V>(env: Env<M, V>, plan: Plan<M>, disk: Disk<M, V>, command: Command)
    requires env.patience != 0
    requires var effect := Execute(env, plan, disk, command);
             effect.result == Completed && |effect.states| >= 2 && BeforeRemoval(effect).checkpoint.Some?
    ensures RangeOf(env, plan, disk, command).Some?
    ensures var (start, target) := RangeOf(env, plan, disk, command).value;
            ResumeDecision(env, plan, BeforeRemoval(Execute(env, plan, disk, command))) == Refuse
            <==> exists r :: EndsIn(env, plan.interval, command.stop, start, target, r)
                             && !ShouldSave(env, plan.interval, command.stop, r)
  {
    CommandTrainsRange(env, plan, disk, command);
    var (start, target) := RangeOf(env, plan, disk, command).value;
    StartsWithCheckpoint(env, plan, disk, command);
    EarlyLeftoverIsRefusedIff(env, plan, disk, command.stop, start, target);
    hide Execute, RangeOf, Perform, EndsIn, ShouldSave;
  }

  /** A completed command that trains no epoch resumed a finished checkpoint. */
  lemma StartsWithCheckpoint<M, V>(env: Env<M, V>, plan: Plan<M>, disk: Disk<M, V>, command: Command)
    requires env.patience != 0 && Execute(env, plan, disk, command).result == Completed
    requires RangeOf(env, plan, disk, command).Some?
    ensures var (start, target) := RangeOf(env, plan, disk, command).value;
            start.epoch >= target || start.control.reason != NoReason ==>
              disk.checkpoint.Some? && disk.checkpoint.value.epoch == start.epoch
  {
    hide TrailFrom, Checkpointed;
  }

  // ---------- accepted leftovers ----------

  /** A later selection keeps the best model or beats it by more than the margin. */
  ghost predicate KeepsOrBeats<M, V>(env: Env<M, V>, before: Run<M, V>, after: Run<M, V>) {
    && before.best.Some? && after.best.Some?
    && (after.best == before.best
        || (after.best.value.epoch > before.epoch && before.best.value.loss - after.best.value.loss > env.minDelta))
  }

  lemma {:induction false} LoopKeepsOrBeats<M, V>(env: Env<M, V>, r: Run<M, V>, target: Word)
    requires env.patience != 0 && env.minDelta >= 0.0 && r.best.Some? && r.epoch < target
    requires Loop(env, r, target).Finished?
    ensures KeepsOrBeats(env, r, Loop(env, r, target).run)
    decreases target - r.epoch
  {
    var next := NextEpoch(env, r).value;
    NextEpochCounts(env, r);
    assert KeepsOrBeats(env, r, next);
    if Verdict(env, next, target).None? {
      LoopKeepsOrBeats(env, next, target);
    }
    hide NextEpoch;
  }

  /** Resuming the saved end of a range that finalized the weights w. Where the run
      was at its target or had converged, the same model is installed once more.
      Where it had only run out of patience, resume trains on: it replaces the
      finalized weights by those of more epochs, selected from the old best and
      the epochs after it. */
  ghost predicate Reinstalls<M, V>(env: Env<M, V>, r: Run<M, V>, target: Word, w: Weights<M>, ck: Saved<M, V>,
                                   effect: Effect<M, V>)
  {
    if r.epoch == target || r.control.reason != NoReason then
      && effect.result == Completed
      && var again := w.(reason := if r.epoch == target then TargetEpochs else ReasonOf(r.control).value);
         effect.states == [Disk(Some(again), Some(ck)), Disk(Some(again), None)]
    else
      && w.reason == StoppedEarly
      && (effect.result == Completed ==>
            && effect.states != [] && effect.states[|effect.states| - 1].weights.Some?
            && var later := effect.states[|effect.states| - 1].weights.value;
               && w.completed < later.completed <= target
               && ((later.model == w.model && later.selected == w.selected)
                   || w.completed < later.selected <= later.completed))
  }

  lemma AcceptedLeftover<M(!new), V(!new)>(env: Env<M, V>, plan: Plan<M>, disk: Disk<M, V>, stop: nat -> bool,
                                           start: Run<M, V>, target: Word, r: Run<M, V>, again: nat -> bool)
    requires ValidEnv(env) && env.patience != 0 && Sound(env, start)
    requires EndsIn(env, plan.interval, stop, start, target, r) && ShouldSave(env, plan.interval, stop, r)
    requires Perform(env, disk, TrailOf(env, plan.interval, stop, start, target), target).result == Completed
    ensures var effect := Perform(env, disk, TrailOf(env, plan.interval, stop, start, target), target);
            var left := BeforeRemoval(effect);
            && left.weights.Some? && left.checkpoint == Some(Save(env, r, target))
            && ResumeDecision(env, plan, left) == TrainOn
            && Reinstalls(env, r, target, left.weights.value, Save(env, r, target),
                          ResumeEffect(env, plan, left, again))
  {
    var trail := TrailOf(env, plan.interval, stop, start, target);
    CompletedRange(env, disk, trail, target);
    LastSave(env, plan.interval, stop, start, target);
    TrailEndsLikeLoop(env, plan.interval, stop, start, target);
    var k := LoopEndsOnTheWay(env, start, target, 0);
    RunAtIsSound(env, start, target, k);
    RunAtIsOnTheWay(env, start, target, k);
    var left := BeforeRemoval(Perform(env, disk, trail, target));
    hide TrailFrom, Loop, RunAt, NextEpoch, Perform;
    assert ResumeDecision(env, plan, left) == TrainOn;
    ResumedEnd(env, plan, left, target, r, trail.end.outcome.completion, again);
  }

  /** The same for the three commands. */
  lemma AcceptedCut<M(!new), V(!new)>(env: Env<M, V>, plan: Plan<M>, disk: Disk<M, V>, command: Command,
                                      r: Run<M, V>, again: nat -> bool)
    requires ValidEnv(env) && env.patience != 0 && Execute(env, plan, disk, command).result == Completed
    requires RangeOf(env, plan, disk, command).Some?
    requires var (start, target) := RangeOf(env, plan, disk, command).value;
             && Sound(env, start) && EndsIn(env, plan.interval, command.stop, start, target, r)
             && ShouldSave(env, plan.interval, command.stop, r)
    ensures |Execute(env, plan, disk, command).states| >= 2
    ensures var left := BeforeRemoval(Execute(env, plan, disk, command));
            var target := RangeOf(env, plan, disk, command).value.1;
            && left.weights.Some? && left.checkpoint == Some(Save(env, r, target))
            && ResumeDecision(env, plan, left) == TrainOn
            && Reinstalls(env, r, target, left.weights.value, Save(env, r, target),
                          ResumeEffect(env, plan, left, again))
  {
    CommandTrainsRange(env, plan, disk, command);
    var (start, target) := RangeOf(env, plan, disk, command).value;
    CompletedRange(env, disk, TrailOf(env, plan.interval, command.stop, start, target), target);
    AcceptedLeftover(env, plan, disk, command.stop, start, target, r, again);
    hide Execute, RangeOf, Perform, TrailOf, EndsIn, ShouldSave, Reinstalls, ResumeEffect, ResumeDecision, Save;
  }

  lemma ResumedEnd<M, V>(env: Env<M, V>, plan: Plan<M>, left: Disk<M, V>, target: Word, r: Run<M, V>,
                         completion: Completion, again: nat -> bool)
    requires env.patience != 0 && env.minDelta >= 0.0 && Sound(env, r)
    requires 0 < r.epoch <= target && Verdict(env, r, target) == Some(completion) && env.objective(r.model).Some?
    requires left.weights == WeightsOf(env, Finished(r, completion), target) && left.weights.Some?
    requires left.checkpoint == Some(Save(env, r, target)) && ResumeDecision(env, plan, left) == TrainOn
    ensures Reinstalls(env, r, target, left.weights.value, Save(env, r, target), ResumeEffect(env, plan, left, again))
  {
    var ck := Save(env, r, target);
    var resumed := Restore(env, ck);
    var trail := TrailOf(env, plan.interval, again, resumed, target);
    var w := left.weights.value;
    assert resumed.best == r.best && resumed.epoch == r.epoch && resumed.control.reason == r.control.reason;
    if r.epoch == target || r.control.reason != NoReason {
      assert trail.saves == [] && trail.end == Ended(Train(env, resumed, target));
      CheckpointedNothing<M, V>(left.weights);
      hide TrailFrom, Loop, Checkpointed;
    } else if Perform(env, left, trail, target).result == Completed {
      CompletedRange(env, left, trail, target);
      TrailEndsLikeLoop(env, plan.interval, again, resumed, target);
      LoopAdvances(env, resumed, target);
      LoopKeepsOrBeats(env, resumed, target);
      hide TrailFrom, Loop, Checkpointed;
    }
  }

  /** And such a refusal occurs. */
  lemma EarlyLeftoverCanBeRefused() returns (env: Env<int, int>, plan: Plan<int>, event: Event)
    ensures env.patience != 0
    ensures var disk := Left(env, plan, [event]);
            disk.checkpoint.Some? && ResumeDecision(env, plan, disk) == Refuse
  {
    env := CountingEnv(5);
    plan := Plan(0, 3, 2);
    event := Event(TrainFresh(Never()), 2);
    var base := Begin(env, 0, 0, None);
    var first := CountingEpoch(env, base);
    var second := CountingEpoch(env, first);
    var third := CountingEpoch(env, second);
    var ck := Save(env, second, 3);
    TrailStep(env, 2, Never(), base, 3, []);
    TrailStep(env, 2, Never(), first, 3, []);
    TrailStep(env, 2, Never(), second, 3, [ck]);
    hide NextEpoch, TrailFrom;
    var trail := TrailOf(env, 2, Never(), base, 3);
    assert trail == Trail([ck], Ended(Finished(third, TargetEpochs)));
    Executed(env, plan, trail, ck, Weights(1, 3, 1, 3, TargetEpochs, 2));
    LeftStep(env, plan, [], event);
    assert [] + [event] == [event];
  }

  /** A model that counts its updates and never gets better. */
  function CountingEnv(patience: Word): Env<int, int> {
    Env(Settings(GradientDescent, 1.0, Constant, 1.0, 0, 0, 0.0, 0.0, -1.0, 0, 0.0), 1,
        (m, v, rate, epoch, batch) => Some((m + 1, v)), m => Some(1.0), m => Some(1.0), patience, 0.0, 0)
  }

  lemma CountingEpoch(env: Env<int, int>, r: Run<int, int>) returns (next: Run<int, int>)
    requires env == CountingEnv(5) && r.epoch < 3 && r.control.completed <= 3 && r.control.rate == 1.0
    requires r.control.reason == NoReason && (r.best.Some? ==> r.best.value.loss == 1.0)
    ensures NextEpoch(env, r) == Some(next)
    ensures next.epoch == r.epoch + 1 && next.model == r.model + 1
    ensures next.control.completed == r.control.completed + 1 && next.control.rate == 1.0
    ensures next.control.reason == NoReason
    ensures if r.best.None? then next.best == Some(Best(1.0, next.epoch, next.model)) && next.stale == 0
            else next.best == r.best && next.stale == r.stale + 1
  {
    assert Updates(env, r.model, r.moments, 1.0, r.epoch, 0) == Updates(env, r.model + 1, r.moments, 1.0, r.epoch, 1);
    next := NextEpoch(env, r).value;
  }
}
