/** Crash safety in every mode, early stopping and convergence controls included.
    Resume may train past a point at which an unbroken run would have stopped, so
    the files need not be those of an unbroken run; but they never leave the one
    trajectory of epochs that starts at the finalized weights. */
module Trajectories {
  import opened Options
  import opened Words
  import opened Schedule
  import opened Training
  import opened EarlyStopping
  import opened Project
  import opened Campaigns

  // ---------- the trajectory ----------

  /** The run after k more epochs, whatever would have stopped it before. */
  function Path<M, V>(env: Env<M, V>, base: Run<M, V>, k: nat): Option<Run<M, V>> {
    if k == 0 then
      Some(base)
    else
      match Path(env, base, k - 1)
      case None => None
      case Some(r) => if r.epoch < SIZE_MAX then NextEpoch(env, r) else None
  }

  lemma {:induction false} PathFacts<M(!new), V(!new)>(env: Env<M, V>, base: Run<M, V>, k: nat)
    requires ValidEnv(env) && Sound(env, base) && Path(env, base, k).Some?
    ensures Sound(env, Path(env, base, k).value) && Path(env, base, k).value.epoch == base.epoch + k
  {
    if k > 0 {
      PathFacts(env, base, k - 1);
      NextEpochIsSound(env, Path(env, base, k - 1).value);
      NextEpochCounts(env, Path(env, base, k - 1).value);
    }
  }

  ghost predicate Follows<M, V>(env: Env<M, V>, base: Run<M, V>, k: nat, r: Run<M, V>) {
    Path(env, base, k).Some? && Similar(env, Path(env, base, k).value, r)
  }

  ghost predicate OnTrack<M, V>(env: Env<M, V>, base: Run<M, V>, ck: Saved<M, V>) {
    exists k :: k > 0 && Path(env, base, k).Some? && ck == Save(env, Path(env, base, k).value, ck.target)
                && ck.epoch <= ck.target
  }

  ghost predicate Reaches<M, V>(env: Env<M, V>, base: Run<M, V>, target: Word, r: Run<M, V>) {
    exists k :: k > 0 && Follows(env, base, k, r) && r.epoch <= target
  }

  lemma SaveOnTrack<M(!new), V(!new)>(env: Env<M, V>, base: Run<M, V>, k: nat, r: Run<M, V>, target: Word)
    requires k > 0 && Follows(env, base, k, r) && r.epoch <= target
    ensures OnTrack(env, base, Save(env, r, target)) && Reaches(env, base, target, r)
  {
    assert Save(env, r, target) == Save(env, Path(env, base, k).value, target);
  }

  /** What a range saves and where it ends lie on the trajectory. */
  lemma {:induction false} TrailOnTrack<M(!new), V(!new)>(
    env: Env<M, V>, interval: Word, stop: nat -> bool, base: Run<M, V>, target: Word, k: nat, r: Run<M, V>)
    requires ValidEnv(env) && Follows(env, base, k, r) && r.epoch < target
    ensures var trail := TrailFrom(env, interval, stop, r, target);
            && (forall i :: 0 <= i < |trail.saves| ==>
                  trail.saves[i].target == target && OnTrack(env, base, trail.saves[i]))
            && (trail.end.Ended? && trail.end.outcome.Finished? ==> Reaches(env, base, target, trail.end.outcome.run))
    decreases target - r.epoch
  {
    hide Similar, Sound;
    TrailStep(env, interval, stop, r, target, []);
    if NextEpoch(env, r).Some? {
      var next := NextEpoch(env, r).value;
      NextEpochCounts(env, r);
      FollowsNext(env, base, k, r);
      SaveOnTrack(env, base, k + 1, next, target);
      if Verdict(env, next, target).None? && !stop(next.epoch) {
        TrailOnTrack(env, interval, stop, base, target, k + 1, next);
      }
    }
    hide OnTrack, Reaches, NextEpoch, Follows;
  }

  lemma FollowsNext<M(!new), V(!new)>(env: Env<M, V>, base: Run<M, V>, k: nat, r: Run<M, V>)
    requires ValidEnv(env) && Follows(env, base, k, r) && r.epoch < SIZE_MAX && NextEpoch(env, r).Some?
    ensures Follows(env, base, k + 1, NextEpoch(env, r).value)
  {
    NextEpochSimilar(env, Path(env, base, k).value, r);
    hide NextEpoch;
  }

  /** Similar runs install the same weights. */
  lemma SimilarWeights<M, V>(env: Env<M, V>, a: Run<M, V>, b: Run<M, V>, reason: Completion, target: Word)
    requires Similar(env, a, b)
    ensures WeightsOf(env, Finished(a, reason), target) == WeightsOf(env, Finished(b, reason), target)
  {
  }

  // ---------- finalized weights ----------

  /** One finalization: the target, the epochs from the base to the end, and the
      reason that was recorded. */
  datatype Mark = Mark(target: Word, epochs: nat, reason: Completion)

  function BaseOf<M, V>(env: Env<M, V>, plan: Plan<M>, marks: seq<Mark>): Option<Run<M, V>>
    decreases marks, 1
  {
    StartFrom(env, plan, InstalledBy(env, plan, marks))
  }

  function InstalledBy<M, V>(env: Env<M, V>, plan: Plan<M>, marks: seq<Mark>): Option<Weights<M>>
    decreases marks, 0
  {
    if marks == [] then
      None
    else
      var n := |marks| - 1;
      match BaseOf(env, plan, marks[..n])
      case None => None
      case Some(base) =>
        match Path(env, base, marks[n].epochs)
        case None => None
        case Some(r) => WeightsOf(env, Finished(r, marks[n].reason), marks[n].target)
  }

  ghost predicate Chain<M, V>(env: Env<M, V>, plan: Plan<M>, marks: seq<Mark>) {
    marks != [] ==>
      var n := |marks| - 1;
      && Chain(env, plan, marks[..n])
      && CanStart(env, plan, marks[..n], marks[n].target)
      && marks[n].epochs > 0
      && InstalledBy(env, plan, marks).Some?
  }

  /** A range to the target can start from these finalizations. */
  ghost predicate CanStart<M, V>(env: Env<M, V>, plan: Plan<M>, marks: seq<Mark>, target: Word) {
    && BaseOf(env, plan, marks).Some? && BaseOf(env, plan, marks).value.epoch < target
    && (marks == [] ==> target == plan.epochs)
  }

  ghost predicate Belongs<M, V>(env: Env<M, V>, plan: Plan<M>, marks: seq<Mark>, ck: Saved<M, V>) {
    CanStart(env, plan, marks, ck.target) && OnTrack(env, BaseOf(env, plan, marks).value, ck)
  }

  /** Finalized weights of a chain, and possibly a checkpoint from the trajectory
      that starts at them or from the one that led to them. */
  ghost predicate Tracked<M, V>(env: Env<M, V>, plan: Plan<M>, marks: seq<Mark>, disk: Disk<M, V>) {
    && Chain(env, plan, marks)
    && disk.weights == InstalledBy(env, plan, marks)
    && (disk.checkpoint.Some? ==>
          var ck := disk.checkpoint.value;
          || Belongs(env, plan, marks, ck)
          || (marks != [] && ck.target == marks[|marks| - 1].target && Belongs(env, plan, marks[..|marks| - 1], ck)))
  }

  lemma BaseIsSound<M, V>(env: Env<M, V>, plan: Plan<M>, marks: seq<Mark>)
    requires BaseOf<M, V>(env, plan, marks).Some?
    ensures Sound(env, BaseOf(env, plan, marks).value) && BaseOf(env, plan, marks).value.control.reason == NoReason
    ensures Follows(env, BaseOf(env, plan, marks).value, 0, BaseOf(env, plan, marks).value)
  {
  }

  // ---------- one command ----------

  /** The finalizations on disk are those the range started from or end with an
      earlier end of the very same range. */
  ghost predicate StandsOn<M, V>(env: Env<M, V>, plan: Plan<M>, marks: seq<Mark>, target: Word, current: seq<Mark>,
                                 disk: Disk<M, V>)
  {
    && CanStart(env, plan, marks, target)
    && (disk.checkpoint.Some? ==>
          disk.checkpoint.value.target == target && Belongs(env, plan, marks, disk.checkpoint.value))
    && Tracked(env, plan, current, Disk(disk.weights, None))
    && (current == marks || exists m: Mark :: m.target == target && current == marks + [m])
  }

  /** The old finalizations still hold, or those of the range's base and one more. */
  ghost predicate GoesOn<M, V>(env: Env<M, V>, plan: Plan<M>, marks: seq<Mark>, target: Word, current: seq<Mark>,
                               disk: Disk<M, V>)
  {
    Tracked(env, plan, current, disk) || exists m: Mark :: m.target == target && Tracked(env, plan, marks + [m], disk)
  }

  lemma WithCheckpoint<M, V>(env: Env<M, V>, plan: Plan<M>, marks: seq<Mark>, target: Word, current: seq<Mark>,
                             disk: Disk<M, V>, ck: Saved<M, V>)
    requires StandsOn(env, plan, marks, target, current, disk) && ck.target == target && Belongs(env, plan, marks, ck)
    ensures Tracked(env, plan, current, Disk(disk.weights, Some(ck)))
  {
    hide Chain, Belongs, InstalledBy;
    assert current != marks ==> current != [] && current[..|current| - 1] == marks;
  }

  lemma Installed<M(!new), V(!new)>(env: Env<M, V>, plan: Plan<M>, marks: seq<Mark>, target: Word, current: seq<Mark>,
                                    disk: Disk<M, V>, r: Run<M, V>, reason: Completion, checkpoint: Option<Saved<M, V>>)
    requires StandsOn(env, plan, marks, target, current, disk)
    requires Reaches(env, BaseOf(env, plan, marks).value, target, r)
    requires WeightsOf(env, Finished(r, reason), target).Some?
    requires checkpoint.Some? ==> checkpoint.value.target == target && Belongs(env, plan, marks, checkpoint.value)
    ensures GoesOn(env, plan, marks, target, current, Disk(WeightsOf(env, Finished(r, reason), target), checkpoint))
  {
    var base := BaseOf(env, plan, marks).value;
    var k :| k > 0 && Follows(env, base, k, r) && r.epoch <= target;
    SimilarWeights(env, Path(env, base, k).value, r, reason, target);
    var m := Mark(target, k, reason);
    assert (marks + [m])[..|marks|] == marks;
    ChainPrefix(env, plan, marks, target, current, disk);
    hide WeightsOf, Path, StartFrom, Belongs, StandsOn;
    assert Tracked(env, plan, marks + [m], Disk(WeightsOf(env, Finished(r, reason), target), checkpoint));
  }

  lemma ChainPrefix<M, V>(env: Env<M, V>, plan: Plan<M>, marks: seq<Mark>, target: Word, current: seq<Mark>,
                          disk: Disk<M, V>)
    requires StandsOn(env, plan, marks, target, current, disk)
    ensures Chain(env, plan, marks)
  {
    assert current != marks ==> current != [] && current[..|current| - 1] == marks;
    hide InstalledBy, CanStart;
  }

  /** Where a range that starts at its base or at one of its checkpoints goes. */
  ghost predicate TrailTracked<M, V>(env: Env<M, V>, plan: Plan<M>, marks: seq<Mark>, target: Word, trail: Trail<M, V>)
    requires BaseOf<M, V>(env, plan, marks).Some?
  {
    && (forall i :: 0 <= i < |trail.saves| ==>
          trail.saves[i].target == target && Belongs(env, plan, marks, trail.saves[i]))
    && (trail.end.Ended? && trail.end.outcome.Finished? ==>
          Reaches(env, BaseOf(env, plan, marks).value, target, trail.end.outcome.run))
  }

  lemma TrailStaysOnTrack<M(!new), V(!new)>(env: Env<M, V>, plan: Plan<M>, marks: seq<Mark>, stop: nat -> bool,
                                            target: Word, k: nat, r: Run<M, V>)
    requires ValidEnv(env) && CanStart(env, plan, marks, target)
    requires Follows(env, BaseOf(env, plan, marks).value, k, r)
    requires r.epoch <= target && (k == 0 ==> r.epoch < target && r.control.reason == NoReason)
    ensures TrailTracked(env, plan, marks, target, TrailOf(env, plan.interval, stop, r, target))
  {
    hide OnTrack, Reaches, Follows, Path;
    var base := BaseOf(env, plan, marks).value;
    if r.epoch < target && r.control.reason == NoReason {
      TrailOnTrack(env, plan.interval, stop, base, target, k, r);
    } else {
      SaveOnTrack(env, base, k, r, target);
    }
    hide TrailFrom, Loop, BaseOf;
  }

  lemma RangeIsTracked<M(!new), V(!new)>(env: Env<M, V>, plan: Plan<M>, marks: seq<Mark>, target: Word,
                                         current: seq<Mark>, disk: Disk<M, V>, trail: Trail<M, V>)
    requires StandsOn(env, plan, marks, target, current, disk) && TrailTracked(env, plan, marks, target, trail)
    ensures var states := Perform(env, disk, trail, target).states;
            forall i :: 0 <= i < |states| ==> GoesOn(env, plan, marks, target, current, states[i])
  {
    assert trail.end.Ended? && trail.end.outcome.Failed? ==> WeightsOf(env, trail.end.outcome, target).None?;
    hide Belongs, Reaches, Tracked, BaseOf, WeightsOf;
    forall i | 0 <= i < |trail.saves|
      ensures GoesOn(env, plan, marks, target, current, Disk(disk.weights, Some(trail.saves[i])))
    {
      WithCheckpoint(env, plan, marks, target, current, disk, trail.saves[i]);
    }
    if trail.end.Ended? && trail.end.outcome.Finished?
       && WeightsOf(env, trail.end.outcome, target).Some? {
      var Finished(end, reason) := trail.end.outcome;
      Installed(env, plan, marks, target, current, disk, end, reason, LastCheckpoint(disk, trail.saves));
      Installed(env, plan, marks, target, current, disk, end, reason, None);
    }
    hide StandsOn, GoesOn;
  }

  /** What a command may add to the finalizations: a mark for the target that it
      asks for or that the checkpoint carries, behind the base that the checkpoint's
      trajectory starts from. Resuming a leftover replaces the last mark. */
  ghost predicate Seeks<M, V>(env: Env<M, V>, plan: Plan<M>, current: seq<Mark>, disk: Disk<M, V>, command: Command,
                              marks: seq<Mark>, target: Word)
  {
    match command
    case TrainFresh(_) => disk == Disk(None, None) && marks == current == [] && target == plan.epochs
    case TrainAdditional(count, _) =>
      disk.weights.Some? && disk.checkpoint.None? && marks == current && target == disk.weights.value.completed + count
    case Resume(_) =>
      && disk.checkpoint.Some? && target == disk.checkpoint.value.target
      && Belongs(env, plan, marks, disk.checkpoint.value)
      && (marks == current || (current != [] && marks == current[..|current| - 1]
                               && target == current[|current| - 1].target))
  }

  /** How one command, cut anywhere, changes the finalizations. */
  ghost predicate Evolves<M, V>(env: Env<M, V>, plan: Plan<M>, current: seq<Mark>, disk: Disk<M, V>, command: Command,
                                next: seq<Mark>)
  {
    || next == current
    || (next != [] && Seeks(env, plan, current, disk, command, next[..|next| - 1], next[|next| - 1].target))
  }

  lemma FreshIsTracked<M(!new), V(!new)>(env: Env<M, V>, plan: Plan<M>, current: seq<Mark>, disk: Disk<M, V>,
                                         stop: nat -> bool)
    requires ValidEnv(env) && Tracked(env, plan, current, disk)
    requires FreshEffect(env, plan, disk, stop).states != []
    ensures Seeks(env, plan, current, disk, TrainFresh(stop), [], plan.epochs)
    ensures var states := FreshEffect(env, plan, disk, stop).states;
            forall i :: 0 <= i < |states| ==> GoesOn(env, plan, [], plan.epochs, current, states[i])
  {
    hide TrailFrom, Loop, Checkpointed, GoesOn;
    if plan.epochs > 0 {
      var base := Begin(env, plan.initial, 0, None);
      assert BaseOf<M, V>(env, plan, []) == Some(base);
      BaseIsSound<M, V>(env, plan, []);
      TrailStaysOnTrack(env, plan, [], stop, plan.epochs, 0, base);
      RangeIsTracked(env, plan, [], plan.epochs, current, disk, TrailOf(env, plan.interval, stop, base, plan.epochs));
    }
  }

  lemma AdditionalIsTracked<M(!new), V(!new)>(env: Env<M, V>, plan: Plan<M>, current: seq<Mark>, disk: Disk<M, V>,
                                              count: Word, stop: nat -> bool)
    requires ValidEnv(env) && Tracked(env, plan, current, disk)
    requires AdditionalEffect(env, plan, disk, count, stop).states != []
    ensures disk.weights.Some? && count <= SIZE_MAX - disk.weights.value.completed
    ensures var target := disk.weights.value.completed + count;
            Seeks(env, plan, current, disk, TrainAdditional(count, stop), current, target)
    ensures var states, target := AdditionalEffect(env, plan, disk, count, stop).states,
        disk.weights.value.completed + count;
            forall i :: 0 <= i < |states| ==> GoesOn(env, plan, current, target, current, states[i])
  {
    hide TrailOf, Perform, GoesOn, Path;
    assert current != [];
    hide InstalledBy;
    var base := BaseOf<M, V>(env, plan, current).value;
    var target := disk.weights.value.completed + count;
    BaseIsSound<M, V>(env, plan, current);
    TrailStaysOnTrack(env, plan, current, stop, target, 0, base);
    RangeIsTracked(env, plan, current, target, current, disk, TrailOf(env, plan.interval, stop, base, target));
  }

  lemma ResumeIsTracked<M(!new), V(!new)>(env: Env<M, V>, plan: Plan<M>, current: seq<Mark>, disk: Disk<M, V>,
                                          stop: nat -> bool) returns (marks: seq<Mark>)
    requires ValidEnv(env) && Tracked(env, plan, current, disk)
    requires ResumeEffect(env, plan, disk, stop).states != []
    ensures disk.checkpoint.Some?
    ensures Seeks(env, plan, current, disk, Resume(stop), marks, disk.checkpoint.value.target)
    ensures var states := ResumeEffect(env, plan, disk, stop).states;
            forall i :: 0 <= i < |states| ==> GoesOn(env, plan, marks, disk.checkpoint.value.target, current, states[i])
  {
    assert Tracked(env, plan, current, Disk(disk.weights, None));
    hide TrailOf, Perform, InstalledBy, Chain, CanStart, OnTrack;
    var ck, n := disk.checkpoint.value, |current| - 1;
    marks := if Belongs(env, plan, current, ck) then current else current[..n];
    assert current != [] ==> current == current[..n] + [current[n]];
    if ResumeDecision(env, plan, disk) == TrainOn {
      assert StandsOn(env, plan, marks, ck.target, current, disk);
      var k := TrackedAt(env, plan, marks, ck);
      TrailStaysOnTrack(env, plan, marks, stop, ck.target, k, Restore(env, ck));
      RangeIsTracked(env, plan, marks, ck.target, current, disk,
                     TrailOf(env, plan.interval, stop, Restore(env, ck), ck.target));
    }
  }

  lemma TrackedAt<M(!new), V(!new)>(env: Env<M, V>, plan: Plan<M>, marks: seq<Mark>, ck: Saved<M, V>) returns (k: nat)
    requires ValidEnv(env) && Belongs(env, plan, marks, ck)
    ensures k > 0 && Follows(env, BaseOf(env, plan, marks).value, k, Restore(env, ck))
    ensures Restore(env, ck).epoch <= ck.target
  {
    var base := BaseOf(env, plan, marks).value;
    BaseIsSound<M, V>(env, plan, marks);
    k :| k > 0 && Path(env, base, k).Some? && ck == Save(env, Path(env, base, k).value, ck.target)
        && ck.epoch <= ck.target;
    PathFacts(env, base, k);
    RestoredIsSimilar(env, Path(env, base, k).value, ck.target);
    hide Path, BaseOf;
  }

  // ---------- campaigns ----------

  lemma CommandIsTracked<M(!new), V(!new)>(env: Env<M, V>, plan: Plan<M>, current: seq<Mark>, disk: Disk<M, V>,
                                           event: Event) returns (next: seq<Mark>)
    requires ValidEnv(env) && Tracked(env, plan, current, disk)
    ensures Tracked(env, plan, next, Survivor(env, plan, disk, event))
    ensures Evolves(env, plan, current, disk, event.command, next)
  {
    hide Tracked, Seeks, FreshEffect, ResumeEffect, AdditionalEffect;
    var after := Survivor(env, plan, disk, event);
    next := current;
    if after != disk {
      var marks, target := [], plan.epochs;
      match event.command {
        case TrainFresh(stop) =>
          FreshIsTracked(env, plan, current, disk, stop);
        case Resume(stop) =>
          marks := ResumeIsTracked(env, plan, current, disk, stop);
          target := disk.checkpoint.value.target;
        case TrainAdditional(count, stop) =>
          AdditionalIsTracked(env, plan, current, disk, count, stop);
          marks, target := current, disk.weights.value.completed + count;
      }
      assert GoesOn(env, plan, marks, target, current, after);
      if !Tracked(env, plan, current, after) {
        var m: Mark :| m.target == target && Tracked(env, plan, marks + [m], after);
        next := marks + [m];
        assert next[..|next| - 1] == marks;
      }
    }
  }

  /** One stage per state of the files between the commands, each the next one's
      past. */
  ghost predicate Stages<M, V>(env: Env<M, V>, plan: Plan<M>, events: seq<Event>, stages: seq<seq<Mark>>) {
    && |stages| == |events| + 1 && stages[0] == []
    && (forall i :: 0 <= i < |stages| ==> Tracked(env, plan, stages[i], Left(env, plan, events[..i])))
    && (forall i :: 0 <= i < |events| ==>
          Evolves(env, plan, stages[i], Left(env, plan, events[..i]), events[i].command, stages[i + 1]))
  }

  /** In every mode, every campaign of commands and crashes stays on the track. */
  lemma {:induction false} CampaignIsTracked<M(!new), V(!new)>(env: Env<M, V>, plan: Plan<M>, events: seq<Event>)
    returns (stages: seq<seq<Mark>>)
    requires ValidEnv(env)
    ensures Stages(env, plan, events, stages)
  {
    hide Tracked, Survivor, Stages, Evolves, Left;
    if events == [] {
      stages := [[]];
      FirstStage(env, plan);
    } else {
      var n := |events| - 1;
      var before := events[..n];
      var earlier := CampaignIsTracked(env, plan, before);
      LastStage(env, plan, before, earlier);
      LeftStep(env, plan, before, events[n]);
      var next := CommandIsTracked(env, plan, earlier[n], Left(env, plan, before), events[n]);
      StagesGrow(env, plan, before, events[n], earlier, next);
      assert events == before + [events[n]];
      stages := earlier + [next];
    }
  }

  lemma FirstStage<M, V>(env: Env<M, V>, plan: Plan<M>)
    ensures Stages(env, plan, [], [[]])
  {
    assert Tracked<M, V>(env, plan, [], Disk(None, None));
  }

  lemma LastStage<M, V>(env: Env<M, V>, plan: Plan<M>, events: seq<Event>, stages: seq<seq<Mark>>)
    requires Stages(env, plan, events, stages)
    ensures |stages| == |events| + 1 && Tracked(env, plan, stages[|events|], Left(env, plan, events))
  {
    hide Tracked, Left, Evolves;
    assert events[..|events|] == events;
  }

  lemma StagesGrow<M, V>(env: Env<M, V>, plan: Plan<M>, events: seq<Event>, event: Event, stages: seq<seq<Mark>>,
                         next: seq<Mark>)
    requires Stages(env, plan, events, stages)
    requires Tracked(env, plan, next, Left(env, plan, events + [event]))
    requires |stages| == |events| + 1
    requires Evolves(env, plan, stages[|events|], Left(env, plan, events), event.command, next)
    ensures Stages(env, plan, events + [event], stages + [next])
  {
    hide Tracked, Evolves, Left;
    var longer := events + [event];
    assert forall i :: 0 <= i <= |events| ==> longer[..i] == events[..i];
    assert events[..|events|] == events && longer[..|longer|] == longer;
  }

  // ---------- what the weights are ----------

  /** The state of the base or of the trajectory in which the snapshot was taken. */
  ghost predicate TakenFrom<M, V>(env: Env<M, V>, base: Run<M, V>, k: nat, best: Best<M>) {
    || base.best == Some(best)
    || exists j :: 0 < j <= k && Path(env, base, j).Some? && best.epoch == Path(env, base, j).value.epoch
                   && best.model == Path(env, base, j).value.model && env.validation(best.model) == Some(best.loss)
  }

  /** No epoch up to the k-th beats the loss by more than the margin. */
  ghost predicate BestUpTo<M, V>(env: Env<M, V>, base: Run<M, V>, k: nat, loss: real) {
    && (base.best.Some? ==> base.best.value.loss - loss >= 0.0)
    && forall j :: 0 < j <= k && Path(env, base, j).Some? ==>
         env.validation(Path(env, base, j).value.model).Some?
         && loss - env.validation(Path(env, base, j).value.model).value <= env.minDelta
  }

  lemma {:induction false} BestIsOnPath<M, V>(env: Env<M, V>, base: Run<M, V>, k: nat)
    requires env.patience != 0 && env.minDelta >= 0.0 && Path(env, base, k).Some?
    requires k > 0 || base.best.Some?
    ensures var best := Path(env, base, k).value.best;
            best.Some? && TakenFrom(env, base, k, best.value) && BestUpTo(env, base, k, best.value.loss)
  {
    if k > 0 {
      if k > 1 || base.best.Some? {
        BestIsOnPath(env, base, k - 1);
        var before := Path(env, base, k - 1).value.best.value;
        assert TakenFrom(env, base, k, before);
      }
      var r := Path(env, base, k).value;
      assert env.validation(r.model).Some?;
    }
  }

  /** The weights are the best snapshot of the trajectory that led to them. */
  ghost predicate BestOfTrajectory<M, V>(env: Env<M, V>, plan: Plan<M>, marks: seq<Mark>, w: Weights<M>, loss: real) {
    && marks != [] && BaseOf<M, V>(env, plan, marks[..|marks| - 1]).Some?
    && var base, epochs := BaseOf(env, plan, marks[..|marks| - 1]).value, marks[|marks| - 1].epochs;
       && Path(env, base, epochs).Some? && w.completed == base.epoch + epochs
       && TakenFrom(env, base, epochs, Best(loss, w.selected, w.model))
       && BestUpTo(env, base, epochs, loss)
  }

  lemma TrackedWeights<M(!new), V(!new)>(env: Env<M, V>, plan: Plan<M>, marks: seq<Mark>, disk: Disk<M, V>)
    returns (loss: real)
    requires ValidEnv(env) && env.patience != 0 && Tracked(env, plan, marks, disk) && disk.weights.Some?
    ensures BestOfTrajectory(env, plan, marks, disk.weights.value, loss)
  {
    hide Path, TakenFrom, BestUpTo, Belongs;
    var n := |marks| - 1;
    var base := BaseOf(env, plan, marks[..n]).value;
    var epochs := marks[n].epochs;
    BaseIsSound<M, V>(env, plan, marks[..n]);
    PathFacts(env, base, epochs);
    BestIsOnPath(env, base, epochs);
    loss := Path(env, base, epochs).value.best.value.loss;
  }

  /** With early stopping, whatever was crashed and resumed: the installed model is
      the snapshot of the best epoch of one trajectory from the previous weights. */
  lemma InstalledIsBestOfTrajectory<M(!new), V(!new)>(env: Env<M, V>, plan: Plan<M>, events: seq<Event>)
    returns (stages: seq<seq<Mark>>, loss: real)
    requires ValidEnv(env) && env.patience != 0 && Left(env, plan, events).weights.Some?
    ensures Stages(env, plan, events, stages) && |stages| == |events| + 1
    ensures BestOfTrajectory(env, plan, stages[|events|], Left(env, plan, events).weights.value, loss)
  {
    hide Left, Evolves, Tracked, BestOfTrajectory;
    hide Stages;
    stages := CampaignIsTracked(env, plan, events);
    LastStage(env, plan, events, stages);
    loss := TrackedWeights(env, plan, stages[|events|], Left(env, plan, events));
  }
}
