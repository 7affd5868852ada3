/** When checkpoints are written, spelled out epoch by epoch, and what a signal
    costs: nothing, once training is resumed. */
module Signals {
  import opened Options
  import opened Words
  import opened Schedule
  import opened Training
  import opened Project
  import Trajectories

  // ---------- which epochs are saved ----------

  /** The range trains its k-th epoch: nothing ended it earlier, no verdict and no
      signal. */
  ghost predicate Reached<M, V>(env: Env<M, V>, stop: nat -> bool, start: Run<M, V>, target: Word, k: nat) {
    && RunAt(env, start, target, k).Some?
    && forall e :: start.epoch < e < start.epoch + k ==> !stop(e)
  }

  /** The checkpoints that the first k epochs call for: one after a signal, one at
      every multiple of a nonzero interval, one when the patience is exhausted. */
  ghost function Called<M, V>(env: Env<M, V>, interval: Word, stop: nat -> bool, start: Run<M, V>, target: Word, k: nat)
    : (saves: seq<Saved<M, V>>)
    requires RunAt(env, start, target, k).Some?
  {
    if k == 0 then
      []
    else
      var r := RunAt(env, start, target, k).value;
      var earlier := Called(env, interval, stop, start, target, k - 1);
      if stop(start.epoch + k) then earlier + [Save(env, r, target)]
      else if interval != 0 && (start.epoch + k) % interval == 0 then earlier + [Save(env, r, target)]
      else if env.patience != 0 && r.stale >= env.patience then earlier + [Save(env, r, target)]
      else earlier
  }

  /** How a range ends after its k-th epoch: with a signal, or as training does. */
  ghost predicate EndsAfter<M, V>(env: Env<M, V>, stop: nat -> bool, start: Run<M, V>, target: Word, k: nat,
                                  end: Ending<M, V>)
  {
    && Reached(env, stop, start, target, k)
    && match end
       case StoppedBySignal => k > 0 && stop(start.epoch + k)
       case Ended(Finished(r, completion)) =>
         && k > 0 && !stop(start.epoch + k)
         && RunAt(env, start, target, k) == Some(r) && Verdict(env, r, target) == Some(completion)
       case Ended(Failed) => RunAt(env, start, target, k + 1).None?
  }

  /** A range saves exactly what its epochs call for, up to the epoch it ends with. */
  lemma {:induction false} RangeSaves<M, V>(env: Env<M, V>, interval: Word, stop: nat -> bool, start: Run<M, V>,
                                            target: Word, k: nat, r: Run<M, V>) returns (end: nat)
    requires RunAt(env, start, target, k) == Some(r) && r.epoch == start.epoch + k < target
    requires k > 0 ==> Verdict(env, r, target).None? && !stop(r.epoch)
    requires Reached(env, stop, start, target, k)
    ensures var trail := TrailFrom(env, interval, stop, r, target);
            && end >= k && EndsAfter(env, stop, start, target, end, trail.end)
            && Called(env, interval, stop, start, target, k) + trail.saves
               == Called(env, interval, stop, start, target, end)
    decreases target - r.epoch
  {
    hide Called, ShouldSave, Save, Verdict, TrailFrom, SavesOf, EndsAfter, Reached, NextEpoch, RunAt, Prepend;
    FirstEpoch(env, interval, stop, r, target);
    var called := Called(env, interval, stop, start, target, k);
    end := k;
    if NextEpoch(env, r).None? {
      assert called + [] == called;
      EndsFailing(env, stop, start, target, k, r);
    } else {
      var next := NextEpoch(env, r).value;
      CalledStep(env, interval, stop, start, target, k, r);
      var saved := SavesOf(env, interval, stop, next, target);
      ReachedStep(env, stop, start, target, k);
      if stop(next.epoch) || Verdict(env, next, target).Some? {
        end := k + 1;
        EndsNext(env, stop, start, target, k + 1, next);
      } else {
        end := RangeSaves(env, interval, stop, start, target, k + 1, next);
        var rest := TrailFrom(env, interval, stop, next, target).saves;
        assert called + (saved + rest) == (called + saved) + rest;
      }
    }
  }

  lemma EndsFailing<M, V>(env: Env<M, V>, stop: nat -> bool, start: Run<M, V>, target: Word, k: nat, r: Run<M, V>)
    requires Reached(env, stop, start, target, k) && RunAt(env, start, target, k) == Some(r) && r.epoch < target
    requires k > 0 ==> Verdict(env, r, target).None?
    requires NextEpoch(env, r).None?
    ensures EndsAfter(env, stop, start, target, k, Ended(Failed))
  {
    hide NextEpoch, Verdict;
  }

  lemma EndsNext<M, V>(env: Env<M, V>, stop: nat -> bool, start: Run<M, V>, target: Word, k: nat, r: Run<M, V>)
    requires k > 0 && Reached(env, stop, start, target, k) && RunAt(env, start, target, k) == Some(r)
    requires r.epoch == start.epoch + k
    ensures stop(r.epoch) ==> EndsAfter(env, stop, start, target, k, StoppedBySignal)
    ensures !stop(r.epoch) && Verdict(env, r, target).Some? ==>
              EndsAfter(env, stop, start, target, k, Ended(Finished(r, Verdict(env, r, target).value)))
  {
    hide NextEpoch, Verdict, RunAt;
  }

  lemma ReachedStep<M, V>(env: Env<M, V>, stop: nat -> bool, start: Run<M, V>, target: Word, k: nat)
    requires Reached(env, stop, start, target, k) && RunAt(env, start, target, k + 1).Some?
    requires k > 0 ==> !stop(start.epoch + k)
    ensures Reached(env, stop, start, target, k + 1)
  {
  }

  /** The first epoch of a range. */
  lemma FirstEpoch<M, V>(env: Env<M, V>, interval: Word, stop: nat -> bool, r: Run<M, V>, target: Word)
    requires r.epoch < target
    ensures var trail := TrailFrom(env, interval, stop, r, target);
            match NextEpoch(env, r)
            case None => trail == Trail([], Ended(Failed))
            case Some(next) =>
              && next.epoch == r.epoch + 1
              && var saved := SavesOf(env, interval, stop, next, target);
                 if stop(next.epoch) then trail == Trail(saved, StoppedBySignal)
                 else if Verdict(env, next, target).Some?
                 then trail == Trail(saved, Ended(Finished(next, Verdict(env, next, target).value)))
                 else
                   && next.epoch < target
                   && trail.saves == saved + TrailFrom(env, interval, stop, next, target).saves
                   && trail.end == TrailFrom(env, interval, stop, next, target).end
  {
    if NextEpoch(env, r).Some? {
      NextEpochCounts(env, r);
    }
    hide NextEpoch, SavesOf, ReasonOf;
  }

  /** One more epoch: what the observer saves is what the epoch calls for. */
  lemma CalledStep<M, V>(env: Env<M, V>, interval: Word, stop: nat -> bool, start: Run<M, V>, target: Word, k: nat,
                         r: Run<M, V>)
    requires RunAt(env, start, target, k) == Some(r) && r.epoch == start.epoch + k < target
    requires k > 0 ==> Verdict(env, r, target).None?
    requires NextEpoch(env, r).Some?
    ensures RunAt(env, start, target, k + 1) == NextEpoch(env, r)
    ensures Called(env, interval, stop, start, target, k + 1)
         == Called(env, interval, stop, start, target, k)
            + SavesOf(env, interval, stop, NextEpoch(env, r).value, target)
  {
    NextEpochCounts(env, r);
    hide NextEpoch, Save, Verdict;
    var called := Called(env, interval, stop, start, target, k);
    assert called + [] == called;
  }

  /** Every epoch at a multiple of the interval and every early-stopped end is saved;
      without a signal no other epoch is. */
  lemma {:induction false} CalledIff<M, V>(env: Env<M, V>, interval: Word, stop: nat -> bool, start: Run<M, V>,
                                           target: Word, k: nat, j: nat)
    requires 0 < j <= k && RunAt(env, start, target, k).Some?
    ensures RunAt(env, start, target, j).Some?
    ensures var r := RunAt(env, start, target, j).value;
            && r.epoch == start.epoch + j
            && (Save(env, r, target) in Called(env, interval, stop, start, target, k)
                <==> stop(r.epoch) || (interval != 0 && r.epoch % interval == 0)
                     || (env.patience != 0 && r.stale >= env.patience))
  {
    RunAtIsOnTheWay(env, start, target, k);
    assert RunAt(env, start, target, k - 1).Some?;
    CalledUpTo(env, interval, stop, start, target, k - 1);
    var last := CalledLast(env, interval, stop, start, target, k);
    hide RunAt, NextEpoch, Called;
    if j < k {
      CalledIff(env, interval, stop, start, target, k - 1, j);
    }
  }

  lemma CalledLast<M, V>(env: Env<M, V>, interval: Word, stop: nat -> bool, start: Run<M, V>, target: Word, k: nat)
    returns (last: seq<Saved<M, V>>)
    requires k > 0 && RunAt(env, start, target, k).Some?
    ensures RunAt(env, start, target, k - 1).Some?
    ensures Called(env, interval, stop, start, target, k) == Called(env, interval, stop, start, target, k - 1) + last
    ensures var r := RunAt(env, start, target, k).value;
            last == if stop(start.epoch + k) || (interval != 0 && (start.epoch + k) % interval == 0)
                       || (env.patience != 0 && r.stale >= env.patience)
                    then [Save(env, r, target)] else []
  {
    hide NextEpoch, Save;
    var r := RunAt(env, start, target, k).value;
    var earlier := Called(env, interval, stop, start, target, k - 1);
    assert earlier + [] == earlier;
    last := if Called(env, interval, stop, start, target, k) == earlier then [] else [Save(env, r, target)];
    assert |earlier + [Save(env, r, target)]| == |earlier| + 1;
  }

  lemma {:induction false} CalledUpTo<M, V>(env: Env<M, V>, interval: Word, stop: nat -> bool, start: Run<M, V>,
                                            target: Word, k: nat)
    requires RunAt(env, start, target, k).Some?
    ensures forall s :: s in Called(env, interval, stop, start, target, k) ==> s.epoch <= start.epoch + k
  {
    if k > 0 {
      RunAtIsOnTheWay(env, start, target, k);
      CalledUpTo(env, interval, stop, start, target, k - 1);
    }
    hide NextEpoch;
  }

  /** A range that trains at all saves exactly the epochs that it is called to. */
  lemma SavedEpochs<M, V>(env: Env<M, V>, interval: Word, stop: nat -> bool, start: Run<M, V>, target: Word)
    returns (end: nat)
    requires start.epoch < target && start.control.reason == NoReason
    ensures EndsAfter(env, stop, start, target, end, TrailOf(env, interval, stop, start, target).end)
    ensures SavesExactly(env, interval, stop, start, target, end, TrailOf(env, interval, stop, start, target).saves)
  {
    end := RangeSaves(env, interval, stop, start, target, 0, start);
    hide TrailFrom, RunAt, Called, EndsAfter, SavesExactly;
    var saves := TrailFrom(env, interval, stop, start, target).saves;
    assert [] + saves == saves;
    CalledExactly(env, interval, stop, start, target, end);
  }

  /** Of the first k epochs of a range exactly those are saved that a signal follows,
      that are multiples of the interval, or that exhaust the patience. */
  ghost predicate SavesExactly<M, V>(env: Env<M, V>, interval: Word, stop: nat -> bool, start: Run<M, V>, target: Word,
                                     k: nat, saves: seq<Saved<M, V>>)
  {
    && RunAt(env, start, target, k).Some? && saves == Called(env, interval, stop, start, target, k)
    && forall j :: 0 < j <= k ==> SavedIff(env, interval, stop, start, target, j, saves)
  }

  ghost predicate SavedIff<M, V>(env: Env<M, V>, interval: Word, stop: nat -> bool, start: Run<M, V>, target: Word,
                                 j: nat, saves: seq<Saved<M, V>>)
  {
    && RunAt(env, start, target, j).Some?
    && var r := RunAt(env, start, target, j).value;
       Save(env, r, target) in saves
       <==> stop(start.epoch + j) || (interval != 0 && (start.epoch + j) % interval == 0)
            || (env.patience != 0 && r.stale >= env.patience)
  }

  lemma CalledExactly<M, V>(env: Env<M, V>, interval: Word, stop: nat -> bool, start: Run<M, V>, target: Word, k: nat)
    requires RunAt(env, start, target, k).Some?
    ensures SavesExactly(env, interval, stop, start, target, k, Called(env, interval, stop, start, target, k))
  {
    forall j | 0 < j <= k
      ensures SavedIff(env, interval, stop, start, target, j, Called(env, interval, stop, start, target, k))
    {
      CalledIff(env, interval, stop, start, target, k, j);
      hide RunAt, Called;
    }
    hide SavedIff;
  }

  // ---------- signals ----------

  /** The range ended with a signal after its k-th epoch, and its last checkpoint is
      that epoch's. */
  ghost predicate InterruptedAt<M, V>(env: Env<M, V>, stop: nat -> bool, start: Run<M, V>, target: Word, k: nat,
                                      saves: seq<Saved<M, V>>)
  {
    && k > 0 && Reached(env, stop, start, target, k) && stop(start.epoch + k)
    && saves != [] && saves[|saves| - 1] == Save(env, RunAt(env, start, target, k).value, target)
  }

  /** A signal always leaves the checkpoint of the epoch after which it was seen. */
  lemma SignalIsSaved<M, V>(env: Env<M, V>, interval: Word, stop: nat -> bool, start: Run<M, V>, target: Word)
    returns (k: nat)
    requires TrailOf(env, interval, stop, start, target).end == StoppedBySignal
    ensures start.epoch < target && start.control.reason == NoReason
    ensures InterruptedAt(env, stop, start, target, k, TrailOf(env, interval, stop, start, target).saves)
  {
    k := SavedEpochs(env, interval, stop, start, target);
    hide TrailFrom, RunAt;
  }

  /** The outcome of a run that is saved after its k-th epoch and resumed. */
  lemma ResumedSave<M(!new), V(!new)>(env: Env<M, V>, plan: Plan<M>, start: Run<M, V>, target: Word, k: nat,
                                      disk: Disk<M, V>, calm: nat -> bool)
    requires ValidEnv(env) && Sound(env, start) && k > 0 && RunAt(env, start, target, k).Some?
    requires disk.checkpoint == Some(Save(env, RunAt(env, start, target, k).value, target))
    requires ResumeDecision(env, plan, disk) == TrainOn && forall e :: !calm(e)
    requires env.patience == 0 || RunAt(env, start, target, k).value.stale < env.patience
    ensures Finalizes(env, start, target, ResumeEffect(env, plan, disk, calm))
  {
    var r := RunAt(env, start, target, k).value;
    var resumed := Restore(env, Save(env, r, target));
    RunAtIsOnTheWay(env, start, target, k);
    ResumeEquivalence(env, start, target, k);
    hide RunAt, NextEpoch, Save, Restore, ValidEnv;
    UnstoppedRange(env, plan.interval, calm, resumed, target);
    SameOutcomeSameWeights(env, Train(env, start, target), Train(env, resumed, target), target);
    hide Train, TrailOf, SameOutcome;
    var saves := TrailOf(env, plan.interval, calm, resumed, target).saves;
    hide WeightsOf, Checkpointed;
  }

  /** The files and the result of a run that trains from the start to the target
      without a signal. */
  ghost predicate Finalizes<M, V>(env: Env<M, V>, start: Run<M, V>, target: Word, effect: Effect<M, V>) {
    var weights := WeightsOf(env, Train(env, start, target), target);
    if weights.Some? then
      effect.result == Completed && effect.states != []
      && effect.states[|effect.states| - 1] == Disk(weights, None)
    else
      effect.result == TrainingFailed
  }

  lemma UnstoppedRange<M, V>(env: Env<M, V>, interval: Word, calm: nat -> bool, start: Run<M, V>, target: Word)
    requires forall e :: !calm(e)
    ensures TrailOf(env, interval, calm, start, target).end == Ended(Train(env, start, target))
  {
    if target != 0 && start.epoch < target && start.control.reason == NoReason {
      UnstoppedEnds(env, interval, calm, start, target);
      TrailEndsLikeLoop(env, interval, calm, start, target);
    }
    hide TrailFrom, Loop;
  }

  lemma {:induction false} UnstoppedEnds<M, V>(env: Env<M, V>, interval: Word, calm: nat -> bool, r: Run<M, V>,
                                               target: Word)
    requires (forall e :: !calm(e)) && r.epoch < target
    ensures TrailFrom(env, interval, calm, r, target).end.Ended?
    decreases target - r.epoch
  {
    TrailStep(env, interval, calm, r, target, []);
    if NextEpoch(env, r).Some? && Verdict(env, NextEpoch(env, r).value, target).None? {
      UnstoppedEnds(env, interval, calm, NextEpoch(env, r).value, target);
    }
  }

  lemma SameOutcomeSameWeights<M, V>(env: Env<M, V>, a: Outcome<M, V>, b: Outcome<M, V>, target: Word)
    requires SameOutcome(env, a, b)
    ensures WeightsOf(env, a, target) == WeightsOf(env, b, target)
  {
    if a.Finished? {
      Trajectories.SimilarWeights(env, a.run, b.run, a.completion, target);
    }
    hide WeightsOf;
  }

  /** A command that a signal interrupts leaves the weights alone and the checkpoint
      of the very epoch after which the signal was pending. Resume accepts it unless
      the final weights are below the configured epochs, and undisturbed it finalizes
      what the command would have finalized without the signal, unless patience was
      exhausted in that very epoch. */
  lemma InterruptionCostsNothing<M(!new), V(!new)>(env: Env<M, V>, plan: Plan<M>, disk: Disk<M, V>, command: Command,
                                                   calm: nat -> bool) returns (k: nat)
    requires ValidEnv(env) && 0 < plan.epochs && Execute(env, plan, disk, command).result == Interrupted
    requires forall e :: !calm(e)
    ensures RangeOf(env, plan, disk, command).Some? && Execute(env, plan, disk, command).states != []
    ensures var (start, target), states := RangeOf(env, plan, disk, command).value,
                                           Execute(env, plan, disk, command).states;
            LeftBySignal(env, plan, disk, command.stop, start, target, k, states[|states| - 1], calm)
  {
    hide Execute, RangeOf, TrailOf, RunAt, Finalizes, ResumeEffect, ValidEnv, Sound, Save, ResumeDecision;
    InterruptedRange(env, plan, disk, command);
    var (start, target) := RangeOf(env, plan, disk, command).value;
    k := SignalIsSaved(env, plan.interval, command.stop, start, target);
    var r := RunAt(env, start, target, k).value;
    SavedAfter(env, start, target, k);
    var left := Disk(disk.weights, Some(Save(env, r, target)));
    InterruptedDecision(env, plan, disk, command, r);
    var patient := env.patience == 0 || r.stale < env.patience;
    if patient && Sound(env, start) && ResumeDecision(env, plan, left) == TrainOn {
      ResumedSave(env, plan, start, target, k, left, calm);
    }
  }

  lemma SavedAfter<M, V>(env: Env<M, V>, start: Run<M, V>, target: Word, k: nat)
    requires k > 0 && RunAt(env, start, target, k).Some?
    ensures start.epoch < RunAt(env, start, target, k).value.epoch <= target
  {
    RunAtIsOnTheWay(env, start, target, k);
    hide RunAt;
  }

  /** What a signal leaves after the k-th epoch, and what resuming it does. */
  ghost predicate LeftBySignal<M(!new), V(!new)>(env: Env<M, V>, plan: Plan<M>, disk: Disk<M, V>, stop: nat -> bool,
                                                 start: Run<M, V>, target: Word, k: nat, left: Disk<M, V>,
                                                 calm: nat -> bool)
  {
    && k > 0 && Reached(env, stop, start, target, k) && stop(start.epoch + k)
    && RunAt(env, start, target, k).Some?
    && var r := RunAt(env, start, target, k).value;
       && left == Disk(disk.weights, Some(Save(env, r, target)))
       && (ResumeDecision(env, plan, left) == TrainOn
           <==> disk.weights.None? || env.patience != 0 || disk.weights.value.completed >= plan.epochs)
       && (Sound(env, start) && ResumeDecision(env, plan, left) == TrainOn
           && (env.patience == 0 || r.stale < env.patience) ==>
             Finalizes(env, start, target, ResumeEffect(env, plan, left, calm)))
  }

  lemma InterruptedRange<M, V>(env: Env<M, V>, plan: Plan<M>, disk: Disk<M, V>, command: Command)
    requires Execute(env, plan, disk, command).result == Interrupted
    ensures RangeOf(env, plan, disk, command).Some?
    ensures var (start, target) := RangeOf(env, plan, disk, command).value;
            var trail := TrailOf(env, plan.interval, command.stop, start, target);
            && trail.end == StoppedBySignal
            && Execute(env, plan, disk, command) == Effect(Interrupted, Checkpointed(disk.weights, trail.saves))
  {
    hide TrailOf, WeightsOf;
  }

  lemma InterruptedDecision<M, V>(env: Env<M, V>, plan: Plan<M>, disk: Disk<M, V>, command: Command, r: Run<M, V>)
    requires Execute(env, plan, disk, command).result == Interrupted && 0 < plan.epochs
    requires RangeOf(env, plan, disk, command).Some?
    requires var (start, target) := RangeOf(env, plan, disk, command).value;
             start.epoch < r.epoch <= target && start.epoch < target
    ensures var (start, target) := RangeOf(env, plan, disk, command).value;
            ResumeDecision(env, plan, Disk(disk.weights, Some(Save(env, r, target)))) == TrainOn
            <==> disk.weights.None? || env.patience != 0 || disk.weights.value.completed >= plan.epochs
  {
    hide TrailOf, WeightsOf, Checkpointed;
  }
}
