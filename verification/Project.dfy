/** The three training commands of a project and the two files they replace
    atomically. A command's effect is the list of disk states it passes through;
    a crash leaves any one of them behind. */
module Project {
  import opened Options
  import opened Words
  import opened Schedule
  import opened Training
  import opened EarlyStopping

  /** Final weights; format version 1 is written exactly for target completions
      without early stopping. */
  datatype Weights<M> = Weights(
    model: M, completed: Word, selected: Word, target: Word, reason: Completion, version: nat)

  datatype Disk<M, V> = Disk(weights: Option<Weights<M>>, checkpoint: Option<Saved<M, V>>)

  /** The configuration that the drivers read. */
  datatype Plan<M> = Plan(initial: M, epochs: Word, interval: Word)

  /** A command; `stop(e)` tells whether a signal is pending after epoch e. */
  datatype Command =
    | TrainFresh(stop: nat -> bool)
    | Resume(stop: nat -> bool)
    | TrainAdditional(count: Word, stop: nat -> bool)

  datatype Result = Completed | Refused | Interrupted | TrainingFailed

  datatype Effect<M, V> = Effect(result: Result, states: seq<Disk<M, V>>)

  // ---------- training under observation ----------

  datatype Ending<M, V> = Ended(outcome: Outcome<M, V>) | StoppedBySignal

  /** The checkpoints a training range writes, and how it ends. */
  datatype Trail<M, V> = Trail(saves: seq<Saved<M, V>>, end: Ending<M, V>)

  predicate ShouldSave<M, V>(env: Env<M, V>, interval: Word, stop: nat -> bool, r: Run<M, V>) {
    stop(r.epoch) || (env.patience != 0 && r.stale >= env.patience) || (interval != 0 && r.epoch % interval == 0)
  }

  function TrailFrom<M, V>(env: Env<M, V>, interval: Word, stop: nat -> bool, r: Run<M, V>, target: Word): Trail<M, V>
    requires r.epoch < target
    decreases target - r.epoch
  {
    match NextEpoch(env, r)
    case None => Trail([], Ended(Failed))
    case Some(next) =>
      var saves := SavesOf(env, interval, stop, next, target);
      if stop(next.epoch) then
        Trail(saves, StoppedBySignal)
      else
        match Verdict(env, next, target)
        case Some(completion) => Trail(saves, Ended(Finished(next, completion)))
        case None =>
          if next.epoch <= r.epoch || next.epoch >= target then
            Trail(saves, Ended(Failed))
          else
            Prepend(saves, TrailFrom(env, interval, stop, next, target))
  }

  function Prepend<M, V>(saves: seq<Saved<M, V>>, rest: Trail<M, V>): Trail<M, V> {
    Trail(saves + rest.saves, rest.end)
  }

  function SavesOf<M, V>(env: Env<M, V>, interval: Word, stop: nat -> bool, next: Run<M, V>, target: Word)
    : seq<Saved<M, V>>
  {
    if ShouldSave(env, interval, stop, next) then [Save(env, next, target)] else []
  }

  /** One epoch of a trail, with what was saved before it. */
  lemma TrailStep<M, V>(env: Env<M, V>, interval: Word, stop: nat -> bool, r: Run<M, V>, target: Word,
                        saves: seq<Saved<M, V>>)
    requires r.epoch < target
    ensures var trail := Prepend(saves, TrailFrom(env, interval, stop, r, target));
            match NextEpoch(env, r)
            case None => trail == Trail(saves, Ended(Failed))
            case Some(next) =>
              && next.epoch == r.epoch + 1
              && var more := saves + SavesOf(env, interval, stop, next, target);
                 if stop(next.epoch) then trail == Trail(more, StoppedBySignal)
                 else if Verdict(env, next, target).Some?
                 then trail == Trail(more, Ended(Finished(next, Verdict(env, next, target).value)))
                 else next.epoch < target && trail == Prepend(more, TrailFrom(env, interval, stop, next, target))
  {
    hide NextEpoch, ShouldSave, Save, ReasonOf;
    if NextEpoch(env, r).Some? {
      NextEpochCounts(env, r);
    }
  }

  function TrailOf<M, V>(env: Env<M, V>, interval: Word, stop: nat -> bool, start: Run<M, V>, target: Word)
    : Trail<M, V>
  {
    if target == 0 || start.epoch >= target || start.control.reason != NoReason then
      Trail([], Ended(Train(env, start, target)))
    else
      TrailFrom(env, interval, stop, start, target)
  }

  /** The last checkpoint of a finished range is level with its end exactly when
      its last epoch was one to save. */
  lemma {:induction false} LastSave<M, V>(env: Env<M, V>, interval: Word, stop: nat -> bool, r: Run<M, V>, target: Word)
    requires r.epoch < target
    requires var end := TrailFrom(env, interval, stop, r, target).end; end.Ended? && end.outcome.Finished?
    ensures var trail := TrailFrom(env, interval, stop, r, target);
            && r.epoch < trail.end.outcome.run.epoch
            && (ShouldSave(env, interval, stop, trail.end.outcome.run) ==>
                  trail.saves != [] && trail.saves[|trail.saves| - 1] == Save(env, trail.end.outcome.run, target))
            && (!ShouldSave(env, interval, stop, trail.end.outcome.run) && trail.saves != [] ==>
                  trail.saves[|trail.saves| - 1].epoch < trail.end.outcome.run.epoch)
    decreases target - r.epoch
  {
    TrailStep(env, interval, stop, r, target, []);
    var next := NextEpoch(env, r).value;
    if Verdict(env, next, target).None? {
      LastSave(env, interval, stop, next, target);
    }
    hide NextEpoch, Verdict, ShouldSave;
  }

  /** A range that no signal ends is the training loop. */
  lemma {:induction false} TrailEndsLikeLoop<M, V>(env: Env<M, V>, interval: Word, stop: nat -> bool, r: Run<M, V>,
                                                   target: Word)
    requires r.epoch < target && TrailFrom(env, interval, stop, r, target).end.Ended?
    ensures TrailFrom(env, interval, stop, r, target).end.outcome == Loop(env, r, target)
    decreases target - r.epoch
  {
    TrailStep(env, interval, stop, r, target, []);
    if NextEpoch(env, r).Some? && Verdict(env, NextEpoch(env, r).value, target).None? {
      TrailEndsLikeLoop(env, interval, stop, NextEpoch(env, r).value, target);
    }
  }

  // ---------- the commands ----------

  /** The weights that a finished range installs; None is the saver's refusal. */
  function WeightsOf<M, V>(env: Env<M, V>, outcome: Outcome<M, V>, target: Word): Option<Weights<M>> {
    match outcome
    case Failed => None
    case Finished(r, reason) =>
      if env.patience == 0 then
        if reason == TargetEpochs then Some(Weights(r.model, r.epoch, r.epoch, r.epoch, reason, 1))
        else if SaverAccepts(r.epoch, r.epoch, target, reason) && reason != StoppedEarly
        then Some(Weights(r.model, r.epoch, r.epoch, target, reason, 2))
        else None
      else
        match Finalize(env, outcome, target)
        case Installed(model, completed, selected, _, _) =>
          if completed <= SIZE_MAX && selected <= SIZE_MAX
          then Some(Weights(model, completed, selected, target, reason, 2)) else None
        case NotInstalled => None
  }

  function Checkpointed<M, V>(weights: Option<Weights<M>>, saves: seq<Saved<M, V>>): (states: seq<Disk<M, V>>)
    ensures |states| == |saves|
    ensures forall i :: 0 <= i < |saves| ==> states[i] == Disk(weights, Some(saves[i]))
  {
    if saves == [] then [] else Checkpointed(weights, saves[..|saves| - 1]) + [Disk(weights, Some(saves[|saves| - 1]))]
  }

  lemma CheckpointedNothing<M, V>(weights: Option<Weights<M>>)
    ensures Checkpointed<M, V>(weights, []) == []
  {
  }

  lemma {:induction false} CheckpointedJoin<M, V>(weights: Option<Weights<M>>, a: seq<Saved<M, V>>,
                                                  b: seq<Saved<M, V>>)
    ensures Checkpointed(weights, a + b) == Checkpointed(weights, a) + Checkpointed(weights, b)
  {
    if b == [] {
      assert a + b == a;
    } else {
      CheckpointedJoin(weights, a, b[..|b| - 1]);
      assert (a + b)[..|a + b| - 1] == a + b[..|b| - 1];
    }
  }

  lemma CheckpointedGrows<M, V>(weights: Option<Weights<M>>, saves: seq<Saved<M, V>>, ck: Saved<M, V>)
    ensures Checkpointed(weights, saves + [ck]) == Checkpointed(weights, saves) + [Disk(weights, Some(ck))]
  {
    assert (saves + [ck])[..|saves + [ck]| - 1] == saves;
  }

  function LastCheckpoint<M, V>(disk: Disk<M, V>, saves: seq<Saved<M, V>>): Option<Saved<M, V>> {
    if saves == [] then disk.checkpoint else Some(saves[|saves| - 1])
  }

  lemma LastOfNothing<M, V>(disk: Disk<M, V>)
    ensures LastCheckpoint(disk, []) == disk.checkpoint
  {
  }

  lemma TrailsJoin<M, V>(start: Disk<M, V>, middle: Disk<M, V>, a: seq<Saved<M, V>>, b: seq<Saved<M, V>>)
    requires middle == Disk(start.weights, LastCheckpoint(start, a))
    ensures LastCheckpoint(middle, b) == LastCheckpoint(start, a + b)
    ensures Checkpointed(start.weights, a + b) == Checkpointed(start.weights, a) + Checkpointed(start.weights, b)
  {
    CheckpointedJoin(start.weights, a, b);
  }

  /** Every save is one atomic replacement; then the weights, then the removal. */
  function Perform<M, V>(env: Env<M, V>, disk: Disk<M, V>, trail: Trail<M, V>, target: Word): Effect<M, V> {
    var saved := Checkpointed(disk.weights, trail.saves);
    match trail.end
    case StoppedBySignal => Effect(Interrupted, saved)
    case Ended(outcome) =>
      match WeightsOf(env, outcome, target)
      case None => Effect(TrainingFailed, saved)
      case Some(w) =>
        Effect(Completed, saved + [Disk(Some(w), LastCheckpoint(disk, trail.saves)), Disk(Some(w), None)])
  }

  /** Where a command that starts a new range begins. */
  function StartFrom<M, V>(env: Env<M, V>, plan: Plan<M>, weights: Option<Weights<M>>): Option<Run<M, V>> {
    match weights
    case None => Some(Begin(env, plan.initial, 0, None))
    case Some(w) =>
      if env.patience == 0 || w.completed == 0 then
        Some(Begin(env, w.model, w.completed, None))
      else
        match env.validation(w.model)
        case None => None
        case Some(loss) => Some(Begin(env, w.model, w.completed, Some(Best(loss, w.selected, w.model))))
  }

  datatype Decision = Refuse | DropCheckpoint | TrainOn

  /** What resume decides from the two files. */
  function ResumeDecision<M(==), V>(env: Env<M, V>, plan: Plan<M>, disk: Disk<M, V>): Decision {
    match disk.checkpoint
    case None => Refuse
    case Some(ck) =>
      match disk.weights
      case None => if ck.target == plan.epochs then TrainOn else Refuse
      case Some(w) =>
        if env.patience != 0 then
          if w.completed > ck.epoch then Refuse else TrainOn
        else if w.completed < plan.epochs || w.completed > ck.target then
          Refuse
        else if w.completed == ck.target then
          if ck.epoch == ck.target && ck.model != w.model then Refuse else DropCheckpoint
        else if ck.epoch < w.completed || (ck.epoch == w.completed && ck.model != w.model) then
          Refuse
        else
          TrainOn
  }

  function ResumeEffect<M(==), V>(env: Env<M, V>, plan: Plan<M>, disk: Disk<M, V>, stop: nat -> bool): Effect<M, V> {
    match ResumeDecision(env, plan, disk)
    case Refuse => Effect(Refused, [])
    case DropCheckpoint =>
      if env.objective(disk.weights.value.model).None? then Effect(TrainingFailed, [])
      else Effect(Completed, [Disk(disk.weights, None)])
    case TrainOn =>
      var ck := disk.checkpoint.value;
      Perform(env, disk, TrailOf(env, plan.interval, stop, Restore(env, ck), ck.target), ck.target)
  }

  function FreshEffect<M, V>(env: Env<M, V>, plan: Plan<M>, disk: Disk<M, V>, stop: nat -> bool): Effect<M, V> {
    if disk.weights.Some? || disk.checkpoint.Some? then
      Effect(Refused, [])
    else
      Perform(env, disk, TrailOf(env, plan.interval, stop, Begin(env, plan.initial, 0, None), plan.epochs), plan.epochs)
  }

  function AdditionalEffect<M, V>(env: Env<M, V>, plan: Plan<M>, disk: Disk<M, V>, count: Word, stop: nat -> bool)
    : Effect<M, V>
  {
    if count == 0 || disk.checkpoint.Some? || disk.weights.None? then
      Effect(Refused, [])
    else
      var w := disk.weights.value;
      if (w.completed < plan.epochs && w.version != 2) || count > SIZE_MAX - w.completed then
        Effect(Refused, [])
      else
        match StartFrom(env, plan, disk.weights)
        case None => Effect(TrainingFailed, [])
        case Some(start) =>
          Perform(env, disk, TrailOf(env, plan.interval, stop, start, w.completed + count), w.completed + count)
  }

  function Execute<M(==), V>(env: Env<M, V>, plan: Plan<M>, disk: Disk<M, V>, command: Command): Effect<M, V> {
    match command
    case TrainFresh(stop) => FreshEffect(env, plan, disk, stop)
    case Resume(stop) => ResumeEffect(env, plan, disk, stop)
    case TrainAdditional(count, stop) => AdditionalEffect(env, plan, disk, count, stop)
  }

  /** The range that an accepted command trains, and its target. */
  function RangeOf<M(==), V>(env: Env<M, V>, plan: Plan<M>, disk: Disk<M, V>, command: Command)
    : Option<(Run<M, V>, Word)>
  {
    match command
    case TrainFresh(_) => Some((Begin(env, plan.initial, 0, None), plan.epochs))
    case TrainAdditional(count, _) =>
      if disk.weights.None? || count > SIZE_MAX - disk.weights.value.completed || StartFrom(env, plan,
          disk.weights).None?
      then None
      else Some((StartFrom(env, plan, disk.weights).value, disk.weights.value.completed + count))
    case Resume(_) =>
      match disk.checkpoint
      case None => None
      case Some(ck) => Some((Restore(env, ck), ck.target))
  }

  // ---------- the drivers, file by file ----------

  class Directory<M(==), V> {
    const env: Env<M, V>
    const plan: Plan<M>
    var weights: Option<Weights<M>>
    var checkpoint: Option<Saved<M, V>>
    /** Every state the two files have been in since the last command began. */
    var journal: seq<Disk<M, V>>

    ghost function Files(): Disk<M, V>
      reads this
    {
      Disk(weights, checkpoint)
    }

    constructor (env: Env<M, V>, plan: Plan<M>)
      ensures this.env == env && this.plan == plan && Files() == Disk(None, None) && journal == []
    {
      this.env, this.plan := env, plan;
      weights, checkpoint, journal := None, None, [];
    }

    method WriteWeights(w: Weights<M>)
      modifies this
      ensures Files() == old(Files()).(weights := Some(w)) && journal == old(journal) + [Files()]
    {
      weights := Some(w);
      journal := journal + [Disk(weights, checkpoint)];
    }

    method WriteCheckpoint(ck: Saved<M, V>)
      modifies this
      ensures Files() == old(Files()).(checkpoint := Some(ck)) && journal == old(journal) + [Files()]
    {
      checkpoint := Some(ck);
      journal := journal + [Disk(weights, checkpoint)];
    }

    method RemoveCheckpoint()
      modifies this
      ensures Files() == old(Files()).(checkpoint := None) && journal == old(journal) + [Files()]
    {
      checkpoint := None;
      journal := journal + [Disk(weights, checkpoint)];
    }

    method ResetJournal()
      modifies this`journal
      ensures journal == [Files()]
    {
      journal := [Disk(weights, checkpoint)];
    }

    /** Reboot into the state that a crash left behind. */
    method Reboot(cut: nat)
      requires cut < |journal|
      modifies this
      ensures Files() == old(journal)[cut] && journal == old(journal)
    {
      weights, checkpoint := journal[cut].weights, journal[cut].checkpoint;
    }

    /** One epoch and its checkpoint; None is an epoch that failed. */
    method ObservedEpoch(trainer: Trainer<M, V>, target: Word, stop: nat -> bool) returns (ok: bool)
      requires trainer.env == env && trainer.epoch < target
      modifies this, trainer
      ensures match NextEpoch(env, old(trainer.Value()))
              case None => !ok && Files() == old(Files()) && journal == old(journal)
              case Some(next) =>
                && ok && trainer.Value() == next && weights == old(weights)
                && var saves := SavesOf(env, plan.interval, stop, next, target);
                   && checkpoint == LastCheckpoint(old(Files()), saves)
                   && journal == old(journal) + Checkpointed(weights, saves)
    {
      hide NextEpoch, ShouldSave, Save;
      ok := trainer.RunEpoch();
      CheckpointedNothing<M, V>(weights);
      if ok {
        var next := trainer.Value();
        if ShouldSave(env, plan.interval, stop, next) {
          CheckpointedGrows(weights, [], Save(env, next, target));
          WriteCheckpoint(Save(env, next, target));
        }
      }
    }

    method TrainLoop(trainer: Trainer<M, V>, target: Word, stop: nat -> bool)
      returns (completion: Option<Completion>, stopped: bool)
      requires trainer.env == env && trainer.epoch < target
      modifies this, trainer
      ensures Traced(trainer, old(Files()), old(journal), completion, stopped,
                     TrailFrom(env, plan.interval, stop, old(trainer.Value()), target))
    {
      hide NextEpoch, SavesOf, Checkpointed, ReasonOf, TrailFrom, LastCheckpoint;
      stopped := false;
      ghost var start := trainer.Value();
      ghost var saves: seq<Saved<M, V>> := [];
      CheckpointedNothing<M, V>(weights);
      assert LastCheckpoint(Files(), saves) == checkpoint by {
        LastOfNothing(Files());
      }
      while true
        invariant trainer.epoch < target && weights == old(weights) && !stopped
        invariant checkpoint == LastCheckpoint(old(Files()), saves)
        invariant journal == old(journal) + Checkpointed(weights, saves)
        invariant TrailFrom(env, plan.interval, stop, start, target)
               == Prepend(saves, TrailFrom(env, plan.interval, stop, trainer.Value(), target))
        decreases target - trainer.epoch
      {
        TrailStep(env, plan.interval, stop, trainer.Value(), target, saves);
        ghost var before := Files();
        var ok := ObservedEpoch(trainer, target, stop);
        if !ok {
          return None, false;
        }
        var next := trainer.Value();
        ghost var more := SavesOf(env, plan.interval, stop, next, target);
        TrailsJoin(old(Files()), before, saves, more);
        saves := saves + more;
        if stop(next.epoch) {
          return None, true;
        }
        completion := Verdict(env, next, target);
        if completion.Some? {
          return;
        }
      }
    }

    /** The files and the trainer agree with a trail. */
    ghost predicate Traced(trainer: Trainer<M, V>, before: Disk<M, V>, journalBefore: seq<Disk<M, V>>,
                           completion: Option<Completion>, stopped: bool, trail: Trail<M, V>)
      reads this, trainer
    {
      && weights == before.weights && checkpoint == LastCheckpoint(before, trail.saves)
      && journal == journalBefore + Checkpointed(weights, trail.saves)
      && match trail.end
         case StoppedBySignal => stopped
         case Ended(Failed) => !stopped && completion == None
         case Ended(Finished(r, reason)) => !stopped && completion == Some(reason) && trainer.Value() == r
    }

    /** Trains a range, saving checkpoints on the way; `stopped` tells that a
        signal ended it. */
    method TrainObserved(trainer: Trainer<M, V>, target: Word, stop: nat -> bool)
      returns (completion: Option<Completion>, stopped: bool)
      requires trainer.env == env
      modifies this, trainer
      ensures Traced(trainer, old(Files()), old(journal), completion, stopped,
                     TrailOf(env, plan.interval, stop, old(trainer.Value()), target))
    {
      if target == 0 || trainer.epoch >= target || trainer.control.reason != NoReason {
        completion := trainer.TrainRange(target);
        stopped := false;
        CheckpointedNothing<M, V>(weights);
      } else {
        completion, stopped := TrainLoop(trainer, target, stop);
      }
    }

    /** Installs what the range produced: weights first, then the removal. */
    method Install(trainer: Trainer<M, V>, target: Word, completion: Option<Completion>) returns (result: Result)
      modifies this
      ensures var outcome := if completion.None? then Failed else Finished(trainer.Value(), completion.value);
              match WeightsOf(env, outcome, target)
              case None => result == TrainingFailed && Files() == old(Files()) && journal == old(journal)
              case Some(w) =>
                && result == Completed && Files() == Disk(Some(w), None)
                && journal == old(journal) + [Disk(Some(w), old(checkpoint)), Disk(Some(w), None)]
    {
      if completion.None? {
        return TrainingFailed;
      }
      var w := WeightsOf(env, Finished(trainer.Value(), completion.value), target);
      if w.None? {
        return TrainingFailed;
      }
      WriteWeights(w.value);
      RemoveCheckpoint();
      result := Completed;
    }

    method TrainAndInstall(start: Run<M, V>, target: Word, stop: nat -> bool) returns (result: Result)
      modifies this
      ensures var effect := Perform(env, old(Files()), TrailOf(env, plan.interval, stop, start, target), target);
              && result == effect.result && journal == old(journal) + effect.states
              && Files() == if effect.states == [] then old(Files()) else effect.states[|effect.states| - 1]
    {
      hide TrailOf, Checkpointed, WeightsOf;
      var trainer := new Trainer(env, start);
      var completion, stopped := TrainObserved(trainer, target, stop);
      if stopped {
        return Interrupted;
      }
      result := Install(trainer, target, completion);
    }

    method Fresh(stop: nat -> bool) returns (result: Result)
      modifies this
      ensures Does(old(Files()), TrainFresh(stop), result)
    {
      hide TrailOf, Perform;
      ResetJournal();
      if weights.Some? || checkpoint.Some? {
        return Refused;
      }
      result := TrainAndInstall(Begin(env, plan.initial, 0, None), plan.epochs, stop);
    }

    method Additional(count: Word, stop: nat -> bool) returns (result: Result)
      modifies this
      ensures Does(old(Files()), TrainAdditional(count, stop), result)
    {
      hide TrailOf, Perform;
      ResetJournal();
      if count == 0 || checkpoint.Some? || weights.None? {
        return Refused;
      }
      var w := weights.value;
      if w.completed < plan.epochs && w.version != 2 {
        return Refused;
      }
      if count > SIZE_MAX - w.completed {
        return Refused;
      }
      var start := StartFrom(env, plan, weights);
      if start.None? {
        return TrainingFailed;
      }
      result := TrainAndInstall(start.value, w.completed + count, stop);
    }

    method ResumeTraining(stop: nat -> bool) returns (result: Result)
      modifies this
      ensures Does(old(Files()), Resume(stop), result)
    {
      hide TrailOf, Perform;
      ResetJournal();
      if checkpoint.None? {
        return Refused;
      }
      var ck := checkpoint.value;
      if weights.None? && ck.target != plan.epochs {
        return Refused;
      }
      if weights.Some? {
        var w := weights.value;
        if env.patience != 0 {
          if w.completed > ck.epoch {
            return Refused;
          }
        } else {
          if w.completed < plan.epochs || w.completed > ck.target {
            return Refused;
          }
          if w.completed == ck.target {
            if ck.epoch == ck.target && ck.model != w.model {
              return Refused;
            }
            if env.objective(w.model).None? {
              return TrainingFailed;
            }
            RemoveCheckpoint();
            return Completed;
          }
          if ck.epoch < w.completed || (ck.epoch == w.completed && ck.model != w.model) {
            return Refused;
          }
        }
      }
      result := TrainAndInstall(Restore(env, ck), ck.target, stop);
    }

    /** A command passes through exactly the disk states of its effect. */
    ghost predicate Does(before: Disk<M, V>, command: Command, result: Result)
      reads this
    {
      var effect := Execute(env, plan, before, command);
      && result == effect.result
      && journal == [before] + effect.states
      && Files() == journal[|journal| - 1]
    }
  }
}
