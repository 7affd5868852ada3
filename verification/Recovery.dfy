/** Crash safety of the training commands without early stopping: whatever
    sequence of fresh, resumed and additional runs is cut at whatever point, the
    files on disk are those of an uninterrupted history. */
module Recovery {
  import opened Options
  import opened Words
  import opened Schedule
  import opened Training
  import opened EarlyStopping
  import opened Project

  /** The scope of the crash theorems. */
  ghost predicate Plain<M(!new), V(!new)>(env: Env<M, V>, plan: Plan<M>) {
    ValidEnv(env) && env.patience == 0 && 0 < plan.epochs
  }

  // ---------- uninterrupted histories ----------

  /** The run that extends the finalized targets; without early stopping it always
      exists. */
  function Base<M, V>(env: Env<M, V>, plan: Plan<M>, targets: seq<Word>): Run<M, V>
    decreases targets, 1
  {
    match FinalWeights(env, plan, targets)
    case None => Begin(env, plan.initial, 0, None)
    case Some(w) => Begin(env, w.model, w.completed, None)
  }

  /** The weights of uninterrupted training to one absolute target after another. */
  function FinalWeights<M, V>(env: Env<M, V>, plan: Plan<M>, targets: seq<Word>): Option<Weights<M>>
    decreases targets, 0
  {
    if targets == [] then
      None
    else
      var n := |targets| - 1;
      WeightsOf(env, Train(env, Base(env, plan, targets[..n]), targets[n]), targets[n])
  }

  ghost predicate Lineage<M, V>(env: Env<M, V>, plan: Plan<M>, targets: seq<Word>) {
    targets != [] ==>
      var n := |targets| - 1;
      && Lineage(env, plan, targets[..n])
      && (n == 0 ==> targets[0] == plan.epochs)
      && Base(env, plan, targets[..n]).epoch < targets[n]
      && FinalWeights(env, plan, targets).Some?
  }

  /** A checkpoint that the uninterrupted run from `base` would have written. */
  ghost predicate Recorded<M, V>(env: Env<M, V>, base: Run<M, V>, ck: Saved<M, V>) {
    exists k :: k > 0 && RunAt(env, base, ck.target, k).Some?
        && ck == Save(env, RunAt(env, base, ck.target, k).value, ck.target)
  }

  ghost predicate Extends<M, V>(env: Env<M, V>, plan: Plan<M>, targets: seq<Word>, ck: Saved<M, V>) {
    && Base(env, plan, targets).epoch < ck.target
    && (targets == [] ==> ck.target == plan.epochs)
    && Recorded(env, Base(env, plan, targets), ck)
  }

  /** The disk after a crash: final weights of a lineage, and possibly a checkpoint
      of the run in progress or of the run that was just finalized. */
  ghost predicate Recoverable<M, V>(env: Env<M, V>, plan: Plan<M>, targets: seq<Word>, disk: Disk<M, V>) {
    && Lineage(env, plan, targets)
    && disk.weights == FinalWeights(env, plan, targets)
    && (disk.checkpoint.Some? ==> InProgress(env, plan, targets, disk) || Leftover(env, plan, targets, disk))
  }

  ghost predicate InProgress<M, V>(env: Env<M, V>, plan: Plan<M>, targets: seq<Word>, disk: Disk<M, V>) {
    disk.checkpoint.Some? && Extends(env, plan, targets, disk.checkpoint.value)
  }

  ghost predicate Leftover<M, V>(env: Env<M, V>, plan: Plan<M>, targets: seq<Word>, disk: Disk<M, V>) {
    && disk.checkpoint.Some? && targets != []
    && var n := |targets| - 1;
       disk.checkpoint.value.target == targets[n] && Extends(env, plan, targets[..n], disk.checkpoint.value)
  }

  // ---------- one range, resumed anywhere ----------

  /** Runs that cannot be told apart stop alike and save alike. */
  lemma SimilarActAlike<M, V>(env: Env<M, V>, a: Run<M, V>, b: Run<M, V>, target: Word)
    requires env.patience == 0 && Similar(env, a, b)
    ensures Verdict(env, a, target) == Verdict(env, b, target)
    ensures Save(env, a, target) == Save(env, b, target)
    ensures a.control.reason == b.control.reason
  {
  }

  /** Every checkpoint a resumed loop writes is one the uninterrupted run would
      have written, and if no signal ends the loop it ends as it would have. */
  lemma {:induction false} ResumedTrail<M(!new), V(!new)>(
    env: Env<M, V>, interval: Word, stop: nat -> bool, base: Run<M, V>, target: Word, k: nat, r: Run<M, V>)
    requires ValidEnv(env) && env.patience == 0
    requires RunAt(env, base, target, k).Some? && Similar(env, RunAt(env, base, target, k).value, r)
    requires r.epoch < target && (k > 0 ==> Verdict(env, r, target).None?)
    ensures var trail := TrailFrom(env, interval, stop, r, target);
            && (forall i :: 0 <= i < |trail.saves| ==>
                  trail.saves[i].target == target && Recorded(env, base, trail.saves[i]))
            && (trail.end.Ended? ==> trail.end.outcome == Loop(env, r, target))
    decreases target - r.epoch
  {
    var x := RunAt(env, base, target, k).value;
    NextEpochSimilar(env, x, r);
    TrailStep(env, interval, stop, r, target, []);
    SimilarActAlike(env, x, r, target);
    if NextEpoch(env, r).Some? {
      NextEpochCounts(env, r);
      var y, next := NextEpoch(env, x).value, NextEpoch(env, r).value;
      assert RunAt(env, base, target, k + 1) == Some(y);
      SimilarActAlike(env, y, next, target);
      if ShouldSave(env, interval, stop, next) {
        assert Save(env, next, target) == Save(env, RunAt(env, base, target, k + 1).value, target);
        assert Recorded(env, base, Save(env, next, target));
      }
      if Verdict(env, next, target).None? && !stop(next.epoch) {
        ResumedTrail(env, interval, stop, base, target, k + 1, next);
      }
    }
  }

  /** The run r is the base itself or what a checkpoint of its k-th epoch restores. */
  ghost predicate Resumes<M, V>(env: Env<M, V>, base: Run<M, V>, target: Word, k: nat, r: Run<M, V>) {
    && base.epoch < target && RunAt(env, base, target, k).Some?
    && if k == 0 then r == base else r == Restore(env, Save(env, RunAt(env, base, target, k).value, target))
  }

  lemma RangeTrail<M(!new), V(!new)>(env: Env<M, V>, interval: Word, stop: nat -> bool, base: Run<M, V>, target: Word,
                                     k: nat, r: Run<M, V>)
    requires ValidEnv(env) && env.patience == 0 && Sound(env, base) && base.control.reason == NoReason
    requires Resumes(env, base, target, k, r)
    ensures var trail := TrailOf(env, interval, stop, r, target);
            && (forall i :: 0 <= i < |trail.saves| ==>
                  trail.saves[i].target == target && Recorded(env, base, trail.saves[i]))
            && (trail.end.Ended? ==> SameOutcome(env, Train(env, base, target), trail.end.outcome))
  {
    if k == 0 {
      ResumedTrail(env, interval, stop, base, target, 0, r);
      LoopSimilar(env, base, base, target);
    } else {
      var x := RunAt(env, base, target, k).value;
      RunAtIsSound(env, base, target, k);
      RestoredIsSimilar(env, x, target);
      ResumeEquivalence(env, base, target, k);
      RunAtIsOnTheWay(env, base, target, k);
      SimilarActAlike(env, x, r, target);
      if r.epoch < target && r.control.reason == NoReason {
        ResumedTrail(env, interval, stop, base, target, k, r);
      }
    }
  }

  lemma SameWeights<M, V>(env: Env<M, V>, a: Outcome<M, V>, b: Outcome<M, V>, target: Word)
    requires env.patience == 0 && SameOutcome(env, a, b)
    ensures WeightsOf(env, a, target) == WeightsOf(env, b, target)
  {
  }

  // ---------- one command ----------

  lemma BaseIsFresh<M, V>(env: Env<M, V>, plan: Plan<M>, targets: seq<Word>)
    ensures Sound(env, Base(env, plan, targets))
    ensures Base(env, plan, targets).control.reason == NoReason
    ensures env.patience == 0 ==>
              StartFrom<M, V>(env, plan, FinalWeights(env, plan, targets)) == Some(Base(env, plan, targets))
  {
  }

  lemma NextTarget<M, V>(env: Env<M, V>, plan: Plan<M>, targets: seq<Word>, target: Word)
    requires Lineage(env, plan, targets) && Base(env, plan, targets).epoch < target
    requires targets == [] ==> target == plan.epochs
    ensures FinalWeights(env, plan, targets + [target])
         == WeightsOf(env, Train(env, Base(env, plan, targets), target), target)
    ensures FinalWeights(env, plan, targets + [target]).Some? ==> Lineage(env, plan, targets + [target])
  {
    assert (targets + [target])[..|targets|] == targets;
  }

  /** The targets that the files stand for: the finalized ones and, while a run is
      in progress, its own. */
  ghost function Owed<M, V>(env: Env<M, V>, plan: Plan<M>, targets: seq<Word>, disk: Disk<M, V>): seq<Word> {
    if InProgress(env, plan, targets, disk) then targets + [disk.checkpoint.value.target] else targets
  }

  ghost predicate Settled<M, V>(env: Env<M, V>, plan: Plan<M>, targets: seq<Word>, disk: Disk<M, V>) {
    Recoverable(env, plan, targets, disk) && Owed(env, plan, targets, disk) == targets
  }

  /** Recoverable with the old history, or with one more target that is finalized
      or in progress. */
  ghost predicate Safe<M, V>(env: Env<M, V>, plan: Plan<M>, targets: seq<Word>, target: Word, disk: Disk<M, V>) {
    || Settled(env, plan, targets, disk)
    || (Recoverable(env, plan, targets, disk) && Owed(env, plan, targets, disk) == targets + [target])
    || Settled(env, plan, targets + [target], disk)
  }

  /** A checkpoint is not at the same time ahead of the weights and left behind. */
  lemma NotBoth<M(!new), V(!new)>(env: Env<M, V>, plan: Plan<M>, targets: seq<Word>, disk: Disk<M, V>)
    requires Plain(env, plan) && Recoverable(env, plan, targets, disk) && Leftover(env, plan, targets, disk)
    ensures !InProgress(env, plan, targets, disk) && Settled(env, plan, targets, disk)
  {
    LeftoverFacts(env, plan, targets, disk);
    if InProgress(env, plan, targets, disk) {
      InProgressFacts(env, plan, targets, disk);
    }
    hide Recoverable, InProgress, Leftover;
  }

  /** Whatever operation of a command is its last, the disk is recoverable; a
      completed command leaves no checkpoint. */
  ghost predicate SafeEffect<M, V>(env: Env<M, V>, plan: Plan<M>, targets: seq<Word>, target: Word,
                                   effect: Effect<M, V>)
  {
    && (forall i :: 0 <= i < |effect.states| ==> Safe(env, plan, targets, target, effect.states[i]))
    && (effect.result == Completed ==> effect.states != [] && effect.states[|effect.states| - 1].checkpoint == None)
  }

  /** The command starts a range of its own from finalized weights. */
  ghost predicate Begins<M, V>(env: Env<M, V>, plan: Plan<M>, targets: seq<Word>, target: Word, disk: Disk<M, V>,
                               command: Command)
  {
    && disk == Disk(FinalWeights(env, plan, targets), None)
    && Asks(env, plan, targets, target, command)
  }

  /** What a command asks for, given the finalized targets. */
  ghost predicate Asks<M, V>(env: Env<M, V>, plan: Plan<M>, targets: seq<Word>, target: Word, command: Command) {
    match command
    case TrainFresh(_) => targets == [] && target == plan.epochs
    case TrainAdditional(count, _) => targets != [] && target == Base(env, plan, targets).epoch + count
    case Resume(_) => false
  }

  /** A command that changes the files begins a range, goes on with the one in
      progress, or only tidies up. */
  ghost predicate Accounted<M, V>(env: Env<M, V>, plan: Plan<M>, targets: seq<Word>, target: Word, disk: Disk<M, V>,
                                  command: Command, effect: Effect<M, V>)
  {
    || effect.states == []
    || (Begins(env, plan, targets, target, disk, command) && effect.result != Refused)
    || Owed(env, plan, targets, disk) == targets + [target]
    || forall i :: 0 <= i < |effect.states| ==> Settled(env, plan, targets, effect.states[i])
  }

  lemma SavesAreRecoverable<M, V>(env: Env<M, V>, plan: Plan<M>, targets: seq<Word>, disk: Disk<M, V>,
                                  saves: seq<Saved<M, V>>, target: Word)
    requires Lineage(env, plan, targets) && disk.weights == FinalWeights(env, plan, targets)
    requires Base(env, plan, targets).epoch < target && (targets == [] ==> target == plan.epochs)
    requires forall i :: 0 <= i < |saves| ==>
                           saves[i].target == target && Recorded(env, Base(env, plan, targets), saves[i])
    ensures forall i :: 0 <= i < |saves| ==>
                          Extends(env, plan, targets, saves[i])
                          && Safe(env, plan, targets, target, Disk(disk.weights, Some(saves[i])))
  {
    hide Recorded, Base, FinalWeights, Lineage;
  }

  /** A range trained on top of finalized weights leaves only recoverable disks. */
  lemma RangeIsSafe<M(!new), V(!new)>(
    env: Env<M, V>, plan: Plan<M>, targets: seq<Word>, disk: Disk<M, V>, stop: nat -> bool, target: Word, k: nat,
    r: Run<M, V>)
    requires Plain(env, plan) && Recoverable(env, plan, targets, disk)
    requires targets == [] ==> target == plan.epochs
    requires Resumes(env, Base(env, plan, targets), target, k, r)
    requires disk.checkpoint.Some? ==> InProgress(env, plan, targets, disk) && disk.checkpoint.value.target == target
    ensures var effect := Perform(env, disk, TrailOf(env, plan.interval, stop, r, target), target);
            && SafeEffect(env, plan, targets, target, effect)
            && (effect.result == Completed ==>
                  FinalWeights(env, plan, targets + [target]).Some?
                  && effect.states[|effect.states| - 1] == Disk(FinalWeights(env, plan, targets + [target]), None))
            && effect.result != Refused
            && (effect.result == TrainingFailed ==> FinalWeights(env, plan, targets + [target]).None?)
  {
    hide TrailOf, FinalWeights, Lineage, Recorded, RunAt, Save, Restore, SameOutcome, Train, Base, Perform, Safe;
    hide SafeEffect, Settled;
    var base := Base(env, plan, targets);
    var trail := TrailOf(env, plan.interval, stop, r, target);
    BaseIsFresh(env, plan, targets);
    RangeTrail(env, plan.interval, stop, base, target, k, r);
    NextTarget(env, plan, targets, target);
    SavesAreRecoverable(env, plan, targets, disk, trail.saves, target);
    if trail.end.Ended? {
      SameWeights(env, Train(env, base, target), trail.end.outcome, target);
      var w := WeightsOf(env, trail.end.outcome, target);
      hide WeightsOf;
      if w.Some? {
        Finalized(env, plan, targets, target, w.value, LastCheckpoint(disk, trail.saves));
        Finalized(env, plan, targets, target, w.value, None);
      }
    }
    hide WeightsOf, Recoverable, Extends, InProgress;
    PerformIsSafe(env, plan, targets, disk, trail, target);
  }

  /** Safe saves and a settled end make a safe effect. */
  lemma PerformIsSafe<M, V>(env: Env<M, V>, plan: Plan<M>, targets: seq<Word>, disk: Disk<M, V>, trail: Trail<M, V>,
                            target: Word)
    requires forall i :: 0 <= i < |trail.saves| ==>
                           Safe(env, plan, targets, target, Disk(disk.weights, Some(trail.saves[i])))
    requires trail.end.Ended? && WeightsOf(env, trail.end.outcome, target).Some? ==>
               var w := WeightsOf(env, trail.end.outcome, target);
               && Settled(env, plan, targets + [target], Disk(w, LastCheckpoint(disk, trail.saves)))
               && Settled(env, plan, targets + [target], Disk(w, None))
    ensures var effect := Perform(env, disk, trail, target);
            && SafeEffect(env, plan, targets, target, effect)
            && (effect.result == Completed <==>
                  trail.end.Ended? && WeightsOf(env, trail.end.outcome, target).Some?)
            && (effect.result == TrainingFailed <==>
                  trail.end.Ended? && WeightsOf(env, trail.end.outcome, target).None?)
            && (effect.result == Completed ==>
                  effect.states[|effect.states| - 1] == Disk(WeightsOf(env, trail.end.outcome, target), None))
            && effect.result != Refused
  {
    hide WeightsOf, Settled, LastCheckpoint;
  }

  lemma Finalized<M(!new), V(!new)>(env: Env<M, V>, plan: Plan<M>, targets: seq<Word>, target: Word, w: Weights<M>,
                                    checkpoint: Option<Saved<M, V>>)
    requires Lineage(env, plan, targets + [target]) && FinalWeights(env, plan, targets + [target]) == Some(w)
    requires checkpoint.Some? ==> checkpoint.value.target == target && Extends(env, plan, targets, checkpoint.value)
    requires Plain(env, plan)
    ensures Settled(env, plan, targets + [target], Disk(Some(w), checkpoint))
  {
    assert (targets + [target])[..|targets|] == targets;
    if checkpoint.Some? {
      NotBoth(env, plan, targets + [target], Disk(Some(w), checkpoint));
    }
  }

  /** What a checkpoint left behind by a finalized run has in common with the
      weights: it is never ahead of them, and level with them it is the same state. */
  lemma LeftoverFacts<M(!new), V(!new)>(env: Env<M, V>, plan: Plan<M>, targets: seq<Word>, disk: Disk<M, V>)
    requires Plain(env, plan) && Recoverable(env, plan, targets, disk) && Leftover(env, plan, targets, disk)
    ensures disk.weights.Some?
    ensures var w, ck := disk.weights.value, disk.checkpoint.value;
            && ck.epoch <= w.completed <= ck.target
            && env.objective(w.model).Some?
            && (ck.epoch == w.completed ==> ck.model == w.model)
            && (ck.epoch == w.completed < ck.target ==> Restore(env, ck).control.reason != NoReason)
            && (!env.settings.CanConverge() ==> w.completed == ck.target)
  {
    var n, ck := |targets| - 1, disk.checkpoint.value;
    var base := Base(env, plan, targets[..n]);
    BaseIsFresh(env, plan, targets[..n]);
    var k :| k > 0 && RunAt(env, base, ck.target, k).Some? && ck == Save(env, RunAt(env, base, ck.target, k).value,
        ck.target);
    RunAtIsOnTheWay(env, base, ck.target, k);
    RunAtIsSound(env, base, ck.target, k);
    FinishedRun(env, base, ck.target);
    var x := RunAt(env, base, ck.target, k).value;
    if Verdict(env, x, ck.target).None? {
      LoopAdvances(env, x, ck.target);
    }
    hide NextEpoch, RunAt, Loop;
  }

  /** A finished range ends at its target or, converged, before it. */
  lemma FinishedRun<M(!new), V(!new)>(env: Env<M, V>, base: Run<M, V>, target: Word)
    requires ValidEnv(env) && env.patience == 0 && Sound(env, base) && base.control.reason == NoReason
    requires base.epoch < target && Train(env, base, target).Finished?
    ensures var outcome := Train(env, base, target);
            && base.epoch < outcome.run.epoch <= target && env.objective(outcome.run.model).Some?
            && outcome.completion != StoppedEarly
            && (!env.settings.CanConverge() ==> outcome.completion == TargetEpochs && outcome.run.epoch == target)
            && (outcome.completion == TargetEpochs <==> outcome.run.epoch == target)
  {
    var last := LoopEndsOnTheWay(env, base, target, 0);
    RunAtIsOnTheWay(env, base, target, last);
    if !env.settings.CanConverge() {
      NeverConverges(env, base, target, last);
    }
  }

  lemma {:induction false} NeverConverges<M(!new), V(!new)>(env: Env<M, V>, base: Run<M, V>, target: Word, k: nat)
    requires !env.settings.CanConverge() && base.control.reason == NoReason && RunAt(env, base, target, k).Some?
    ensures RunAt(env, base, target, k).value.control.reason == NoReason
  {
    if k > 0 {
      NeverConverges(env, base, target, k - 1);
      EpochObserves(env, base, target, k);
      hide RunAt;
    }
  }

  lemma InProgressFacts<M, V>(env: Env<M, V>, plan: Plan<M>, targets: seq<Word>, disk: Disk<M, V>)
    requires env.patience == 0 && Recoverable(env, plan, targets, disk) && InProgress(env, plan, targets, disk)
    ensures var ck := disk.checkpoint.value;
            && (disk.weights.None? ==> ck.target == plan.epochs)
            && (disk.weights.Some? ==> disk.weights.value.completed < ck.epoch <= ck.target)
  {
    var ck := disk.checkpoint.value;
    var base := Base(env, plan, targets);
    var k :| k > 0 && RunAt(env, base, ck.target, k).Some? && ck == Save(env, RunAt(env, base, ck.target, k).value,
        ck.target);
    RunAtIsOnTheWay(env, base, ck.target, k);
    hide RunAt, Loop, Train;
  }

  /** Without early stopping the guards of resume accept a recoverable disk with a
      checkpoint exactly when the weights, if any, have reached the configured
      epochs and the checkpoint is not a leftover that a convergence stop has
      overtaken. */
  lemma ResumeIsAcceptedIff<M(!new), V(!new)>(env: Env<M, V>, plan: Plan<M>, targets: seq<Word>, disk: Disk<M, V>)
    requires Plain(env, plan) && Recoverable(env, plan, targets, disk) && disk.checkpoint.Some?
    ensures ResumeDecision(env, plan, disk) != Refuse
            <==> (disk.weights.Some? ==>
                    var w, ck := disk.weights.value, disk.checkpoint.value;
                    w.completed >= plan.epochs && (w.completed == ck.target || w.completed <= ck.epoch))
  {
    if InProgress(env, plan, targets, disk) {
      InProgressFacts(env, plan, targets, disk);
    } else {
      LeftoverFacts(env, plan, targets, disk);
    }
    hide Recoverable, InProgress, Leftover;
  }

  /** Finalized epochs grow along a lineage and, unless a run converges, they are
      its targets. */
  lemma {:induction false} FinalizedEpochs<M(!new), V(!new)>(env: Env<M, V>, plan: Plan<M>, targets: seq<Word>)
    requires Plain(env, plan) && Lineage(env, plan, targets) && targets != []
    ensures var w := FinalWeights(env, plan, targets).value;
            && Base(env, plan, targets[..|targets| - 1]).epoch < w.completed <= targets[|targets| - 1]
            && (!env.settings.CanConverge() ==> w.completed == targets[|targets| - 1] >= plan.epochs)
    decreases |targets|
  {
    var n := |targets| - 1;
    BaseIsFresh(env, plan, targets[..n]);
    FinishedRun(env, Base(env, plan, targets[..n]), targets[n]);
    if n > 0 {
      FinalizedEpochs(env, plan, targets[..n]);
    }
  }

  /** One command, cut anywhere, leaves a recoverable disk; a completed one leaves
      no checkpoint. */
  lemma CommandIsSafe<M(!new), V(!new)>(env: Env<M, V>, plan: Plan<M>, targets: seq<Word>, disk: Disk<M, V>,
                                        command: Command) returns (target: Word)
    requires Plain(env, plan) && Recoverable(env, plan, targets, disk)
    ensures var effect := Execute(env, plan, disk, command);
            && SafeEffect(env, plan, targets, target, effect)
            && Accounted(env, plan, targets, target, disk, command, effect)
  {
    hide Perform, Recoverable, TrailOf, Safe, ResumeDecision, ResumeEffect, FreshEffect, AdditionalEffect;
    hide SafeEffect, Accounted;
    match command {
      case TrainFresh(stop) =>
        target := plan.epochs;
        FreshIsSafe(env, plan, targets, disk, stop);
      case TrainAdditional(count, stop) =>
        target := AdditionalIsSafe(env, plan, targets, disk, count, stop);
      case Resume(stop) =>
        target := if disk.checkpoint.Some? then disk.checkpoint.value.target else plan.epochs;
        if disk.checkpoint.Some? {
          ResumeIsSafe(env, plan, targets, disk, stop);
        } else {
          NothingToResume(env, plan, targets, target, disk, stop);
        }
    }
  }

  lemma NothingToResume<M, V>(env: Env<M, V>, plan: Plan<M>, targets: seq<Word>, target: Word, disk: Disk<M, V>,
                              stop: nat -> bool)
    requires disk.checkpoint.None? || ResumeDecision(env, plan, disk) == Refuse
    ensures var effect := ResumeEffect(env, plan, disk, stop);
            && SafeEffect(env, plan, targets, target, effect)
            && Accounted(env, plan, targets, target, disk, Resume(stop), effect)
  {
  }

  lemma FreshIsSafe<M(!new), V(!new)>(env: Env<M, V>, plan: Plan<M>, targets: seq<Word>, disk: Disk<M, V>,
                                      stop: nat -> bool)
    requires Plain(env, plan) && Recoverable(env, plan, targets, disk)
    ensures var effect := FreshEffect(env, plan, disk, stop);
            && SafeEffect(env, plan, targets, plan.epochs, effect)
            && Accounted(env, plan, targets, plan.epochs, disk, TrainFresh(stop), effect)
  {
    if disk.weights.None? && disk.checkpoint.None? {
      BaseIsFresh(env, plan, targets);
      var base := Base(env, plan, targets);
      assert targets == [] && base == Begin(env, plan.initial, 0, None);
      hide Recoverable, TrailOf, SafeEffect, FinalWeights, Perform;
      RangeIsSafe(env, plan, targets, disk, stop, plan.epochs, 0, base);
    }
  }

  lemma AdditionalIsSafe<M(!new), V(!new)>(env: Env<M, V>, plan: Plan<M>, targets: seq<Word>, disk: Disk<M, V>,
                                           count: Word, stop: nat -> bool) returns (target: Word)
    requires Plain(env, plan) && Recoverable(env, plan, targets, disk)
    ensures var effect := AdditionalEffect(env, plan, disk, count, stop);
            && SafeEffect(env, plan, targets, target, effect)
            && Accounted(env, plan, targets, target, disk, TrainAdditional(count, stop), effect)
  {
    hide TrailOf, SafeEffect, Perform;
    if AdditionalEffect(env, plan, disk, count, stop).result == Refused {
      target := plan.epochs;
      NothingAdditional(env, plan, targets, target, disk, count, stop);
    } else {
      target := disk.weights.value.completed + count;
      AdditionalRange(env, plan, targets, disk, count, stop);
      RangeIsSafe(env, plan, targets, disk, stop, target, 0, Base(env, plan, targets));
    }
  }

  lemma NothingAdditional<M, V>(env: Env<M, V>, plan: Plan<M>, targets: seq<Word>, target: Word, disk: Disk<M, V>,
                                count: Word, stop: nat -> bool)
    requires AdditionalEffect(env, plan, disk, count, stop).result == Refused
    ensures var effect := AdditionalEffect(env, plan, disk, count, stop);
            && SafeEffect(env, plan, targets, target, effect)
            && Accounted(env, plan, targets, target, disk, TrainAdditional(count, stop), effect)
  {
    hide WeightsOf, TrailOf, Checkpointed, StartFrom;
  }

  lemma AdditionalRange<M(!new), V(!new)>(env: Env<M, V>, plan: Plan<M>, targets: seq<Word>, disk: Disk<M, V>,
                                          count: Word, stop: nat -> bool)
    requires Plain(env, plan) && Recoverable(env, plan, targets, disk)
    requires AdditionalEffect(env, plan, disk, count, stop).result != Refused
    ensures targets != [] && disk.weights.Some? && disk.checkpoint.None?
    ensures disk.weights.value.completed + count <= SIZE_MAX
    ensures var target, base := disk.weights.value.completed + count, Base(env, plan, targets);
            && Resumes(env, base, target, 0, base)
            && AdditionalEffect(env, plan, disk, count, stop)
               == Perform(env, disk, TrailOf(env, plan.interval, stop, base, target), target)
  {
    BaseIsFresh(env, plan, targets);
    hide Perform, TrailOf, ValidEnv;
  }

  lemma ResumeIsSafe<M(!new), V(!new)>(env: Env<M, V>, plan: Plan<M>, targets: seq<Word>, disk: Disk<M, V>,
                                       stop: nat -> bool)
    requires Plain(env, plan) && Recoverable(env, plan, targets, disk) && disk.checkpoint.Some?
    ensures var effect, target := ResumeEffect(env, plan, disk, stop), disk.checkpoint.value.target;
            && SafeEffect(env, plan, targets, target, effect)
            && Accounted(env, plan, targets, target, disk, Resume(stop), effect)
  {
    var ck := disk.checkpoint.value;
    if ResumeDecision(env, plan, disk) == Refuse {
      NothingToResume(env, plan, targets, ck.target, disk, stop);
    } else if InProgress(env, plan, targets, disk) {
      InProgressFacts(env, plan, targets, disk);
      var k := RecordedAt(env, Base(env, plan, targets), ck);
      RangeIsSafe(env, plan, targets, disk, stop, ck.target, k, Restore(env, ck));
    } else {
      LeftoverIsSafe(env, plan, targets, disk, stop);
    }
    hide Recoverable, InProgress, Leftover, Perform, Restore, Resumes, TrailOf, SafeEffect;
  }

  lemma LeftoverIsSafe<M(!new), V(!new)>(env: Env<M, V>, plan: Plan<M>, targets: seq<Word>, disk: Disk<M, V>,
                                         stop: nat -> bool)
    requires Plain(env, plan) && Recoverable(env, plan, targets, disk) && Leftover(env, plan, targets, disk)
    requires ResumeDecision(env, plan, disk) != Refuse
    ensures var effect := ResumeEffect(env, plan, disk, stop);
            && effect.result == Completed && effect.states != []
            && effect.states[|effect.states| - 1] == Disk(disk.weights, None)
            && forall i :: 0 <= i < |effect.states| ==> Settled(env, plan, targets, effect.states[i])
  {
    LeftoverFacts(env, plan, targets, disk);
    if ResumeDecision(env, plan, disk) == TrainOn {
      ConvergedLeftover(env, plan, targets, disk, stop);
    } else {
      assert ResumeEffect(env, plan, disk, stop) == Effect(Completed, [Disk(disk.weights, None)]);
    }
    NotBoth(env, plan, targets, disk);
    hide Leftover, ResumeEffect, ResumeDecision;
    WithoutCheckpoint(env, plan, targets, disk);
    hide Recoverable;
  }

  lemma RecordedAt<M, V>(env: Env<M, V>, base: Run<M, V>, ck: Saved<M, V>) returns (k: nat)
    requires Recorded(env, base, ck) && base.epoch < ck.target
    ensures k > 0 && Resumes(env, base, ck.target, k, Restore(env, ck))
    ensures RunAt(env, base, ck.target, k).Some? && ck == Save(env, RunAt(env, base, ck.target, k).value, ck.target)
  {
    k :| k > 0 && RunAt(env, base, ck.target, k).Some? && ck == Save(env, RunAt(env, base, ck.target, k).value,
                                                                     ck.target);
  }

  lemma WithoutCheckpoint<M, V>(env: Env<M, V>, plan: Plan<M>, targets: seq<Word>, disk: Disk<M, V>)
    requires Recoverable(env, plan, targets, disk)
    ensures Settled(env, plan, targets, Disk(disk.weights, None))
  {
  }

  /** A leftover level with converged weights is finalized once more, to the same
      weights. */
  lemma ConvergedLeftover<M(!new), V(!new)>(env: Env<M, V>, plan: Plan<M>, targets: seq<Word>, disk: Disk<M, V>,
                                            stop: nat -> bool)
    requires Plain(env, plan) && Recoverable(env, plan, targets, disk) && Leftover(env, plan, targets, disk)
    requires ResumeDecision(env, plan, disk) == TrainOn
    ensures ResumeEffect(env, plan, disk, stop) == Effect(Completed, [disk, Disk(disk.weights, None)])
  {
    LeftoverFacts(env, plan, targets, disk);
    var n, ck := |targets| - 1, disk.checkpoint.value;
    var base := Base(env, plan, targets[..n]);
    BaseIsFresh(env, plan, targets[..n]);
    var k := RecordedAt(env, base, ck);
    RangeTrail(env, plan.interval, stop, base, ck.target, k, Restore(env, ck));
    var trail := TrailOf(env, plan.interval, stop, Restore(env, ck), ck.target);
    SameWeights(env, Train(env, base, ck.target), trail.end.outcome, ck.target);
    assert trail.saves == [];
  }
}
