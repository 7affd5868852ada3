/** Campaigns: sequences of training commands, each cut anywhere. Whatever is left
    stands for an uninterrupted history, and that history is the campaign's own:
    every target in it was asked for by one of its commands, in order. */
module Campaigns {
  import opened Options
  import opened Words
  import opened Schedule
  import opened Training
  import opened Project
  import opened Recovery

  /** A command and the number of atomic file operations after which the machine
      dies; a large number lets the command finish. */
  datatype Event = Event(command: Command, cut: nat)

  function After<M(==), V>(env: Env<M, V>, plan: Plan<M>, disk: Disk<M, V>, events: seq<Event>): Disk<M, V> {
    if events == [] then
      disk
    else
      var before := After(env, plan, disk, events[..|events| - 1]);
      Survivor(env, plan, before, events[|events| - 1])
  }

  function Survivor<M(==), V>(env: Env<M, V>, plan: Plan<M>, disk: Disk<M, V>, event: Event): Disk<M, V> {
    var journal := [disk] + Execute(env, plan, disk, event.command).states;
    journal[if event.cut < |journal| then event.cut else |journal| - 1]
  }

  /** What a campaign leaves of a project without files. */
  function Left<M(==), V>(env: Env<M, V>, plan: Plan<M>, events: seq<Event>): Disk<M, V> {
    After(env, plan, Disk(None, None), events)
  }

  lemma LeftStep<M, V>(env: Env<M, V>, plan: Plan<M>, events: seq<Event>, event: Event)
    ensures Left<M, V>(env, plan, events + [event]) == Survivor(env, plan, Left(env, plan, events), event)
  {
    assert (events + [event])[..|events|] == events;
  }

  // ---------- safety ----------

  lemma SurvivorIsRecoverable<M(!new), V(!new)>(env: Env<M, V>, plan: Plan<M>, targets: seq<Word>, disk: Disk<M, V>,
                                                event: Event) returns (more: seq<Word>)
    requires Plain(env, plan) && Recoverable(env, plan, targets, disk)
    ensures Recoverable(env, plan, targets + more, Survivor(env, plan, disk, event))
  {
    hide Recoverable, Execute;
    var target := CommandIsSafe(env, plan, targets, disk, event.command);
    var after := Survivor(env, plan, disk, event);
    assert targets + [] == targets;
    more := if Recoverable(env, plan, targets, after) then [] else [target];
  }

  /** Crash safety: from any recoverable disk, every sequence of commands, each cut
      anywhere, ends on a recoverable disk, and the finalized history has only been
      extended. */
  lemma {:induction false} CampaignIsSafe<M(!new), V(!new)>(
    env: Env<M, V>, plan: Plan<M>, targets: seq<Word>, disk: Disk<M, V>, events: seq<Event>) returns (more: seq<Word>)
    requires Plain(env, plan) && Recoverable(env, plan, targets, disk)
    ensures Recoverable(env, plan, targets + more, After(env, plan, disk, events))
  {
    hide Recoverable, Survivor;
    if events == [] {
      more := [];
      assert targets + more == targets;
    } else {
      var earlier := CampaignIsSafe(env, plan, targets, disk, events[..|events| - 1]);
      var before := After(env, plan, disk, events[..|events| - 1]);
      var later := SurvivorIsRecoverable(env, plan, targets + earlier, before, events[|events| - 1]);
      more := earlier + later;
      assert targets + more == targets + earlier + later;
    }
  }

  // ---------- where the history comes from ----------

  /** The command at the given place asked for the target and was not refused, and
      when it started the files held exactly the targets before it. */
  ghost predicate Asked<M, V>(env: Env<M, V>, plan: Plan<M>, events: seq<Event>, before: seq<Word>, target: Word,
                              at: nat)
  {
    && at < |events|
    && Begins(env, plan, before, target, Left(env, plan, events[..at]), events[at].command)
    && Execute(env, plan, Left(env, plan, events[..at]), events[at].command).result != Refused
  }

  /** Every target was asked for, in the order of the campaign. */
  ghost predicate Told<M, V>(env: Env<M, V>, plan: Plan<M>, events: seq<Event>, targets: seq<Word>, origins: seq<nat>) {
    && |origins| == |targets|
    && (forall i :: 0 <= i < |targets| ==> Asked(env, plan, events, targets[..i], targets[i], origins[i]))
    && (forall i, j :: 0 <= i < j < |origins| ==> origins[i] < origins[j])
  }

  lemma AskedStill<M, V>(env: Env<M, V>, plan: Plan<M>, events: seq<Event>, event: Event, before: seq<Word>,
                         target: Word, at: nat)
    requires Asked(env, plan, events, before, target, at)
    ensures Asked(env, plan, events + [event], before, target, at)
  {
    assert (events + [event])[..at] == events[..at];
  }

  lemma ToldStill<M, V>(env: Env<M, V>, plan: Plan<M>, events: seq<Event>, event: Event, targets: seq<Word>,
                        origins: seq<nat>)
    requires Told(env, plan, events, targets, origins)
    ensures Told(env, plan, events + [event], targets, origins)
  {
    forall i | 0 <= i < |targets|
      ensures Asked(env, plan, events + [event], targets[..i], targets[i], origins[i])
    {
      AskedStill(env, plan, events, event, targets[..i], targets[i], origins[i]);
    }
    hide Asked;
  }

  lemma ToldPrefix<M, V>(env: Env<M, V>, plan: Plan<M>, events: seq<Event>, targets: seq<Word>, origins: seq<nat>,
                         n: nat)
    requires Told(env, plan, events, targets, origins) && n <= |targets|
    ensures Told(env, plan, events, targets[..n], origins[..n])
  {
    forall i | 0 <= i < n
      ensures Asked(env, plan, events, targets[..n][..i], targets[..n][i], origins[..n][i])
    {
      assert targets[..n][..i] == targets[..i];
    }
    hide Asked;
  }

  lemma ToldNext<M, V>(env: Env<M, V>, plan: Plan<M>, events: seq<Event>, event: Event, targets: seq<Word>,
                       origins: seq<nat>, target: Word)
    requires Told(env, plan, events, targets, origins)
    requires Begins(env, plan, targets, target, Left(env, plan, events), event.command)
    requires Execute(env, plan, Left(env, plan, events), event.command).result != Refused
    ensures Told(env, plan, events + [event], targets + [target], origins + [|events|])
  {
    assert (events + [event])[..|events|] == events;
    assert Asked(env, plan, events + [event], targets, target, |events|);
    forall i | 0 <= i < |targets| + 1
      ensures Asked(env, plan, events + [event], (targets + [target])[..i], (targets + [target])[i],
                    (origins + [|events|])[i])
    {
      if i < |targets| {
        assert (targets + [target])[..i] == targets[..i];
        AskedStill(env, plan, events, event, targets[..i], targets[i], origins[i]);
      } else {
        assert (targets + [target])[..i] == targets;
      }
    }
    assert forall i :: 0 <= i < |targets| ==> Asked(env, plan, events, targets[..i], targets[i], origins[i]);
    assert forall i :: 0 <= i < |origins| ==> origins[i] < |events|;
    hide Asked;
  }

  /** One cut command leaves the targets that were owed, those that were finalized,
      or one more, for a range that it began. */
  lemma SurvivorOwes<M(!new), V(!new)>(env: Env<M, V>, plan: Plan<M>, history: seq<Word>, disk: Disk<M, V>,
                                       event: Event)
    returns (next: seq<Word>, target: Word)
    requires Plain(env, plan) && Recoverable(env, plan, history, disk)
    ensures Recoverable(env, plan, next, Survivor(env, plan, disk, event))
    ensures var owed := Owed(env, plan, next, Survivor(env, plan, disk, event));
            || owed == history
            || owed == Owed(env, plan, history, disk)
            || (owed == history + [target]
                && Begins(env, plan, history, target, disk, event.command)
                && Execute(env, plan, disk, event.command).result != Refused)
  {
    target := CommandIsSafe(env, plan, history, disk, event.command);
    var effect := Execute(env, plan, disk, event.command);
    var after := Survivor(env, plan, disk, event);
    hide Execute, Begins, Recoverable, Owed;
    assert after == disk || after in effect.states;
    next := if after == disk || !Settled(env, plan, history + [target], after) || Settled(env, plan, history, after)
            then history else history + [target];
  }

  lemma SurvivorIsTold<M(!new), V(!new)>(env: Env<M, V>, plan: Plan<M>, events: seq<Event>, event: Event,
                                         history: seq<Word>, origins: seq<nat>)
    returns (next: seq<Word>, places: seq<nat>)
    requires Plain(env, plan) && Recoverable(env, plan, history, Left(env, plan, events))
    requires Told(env, plan, events, Owed(env, plan, history, Left(env, plan, events)), origins)
    ensures var after := Left(env, plan, events + [event]);
            && Recoverable(env, plan, next, after)
            && Told(env, plan, events + [event], Owed(env, plan, next, after), places)
  {
    var disk := Left(env, plan, events);
    var owed := Owed(env, plan, history, disk);
    assert history == owed[..|history|];
    LeftStep(env, plan, events, event);
    var target;
    next, target := SurvivorOwes(env, plan, history, disk, event);
    var after := Owed(env, plan, next, Left(env, plan, events + [event]));
    hide Owed, Recoverable, Begins, Execute, Survivor;
    ToldPrefix(env, plan, events, owed, origins, |history|);
    if after == owed {
      ToldStill(env, plan, events, event, owed, origins);
      places := origins;
    } else if after == history {
      ToldStill(env, plan, events, event, history, origins[..|history|]);
      places := origins[..|history|];
    } else {
      ToldNext(env, plan, events, event, history, origins[..|history|], target);
      places := origins[..|history|] + [|events|];
    }
    hide Told;
  }

  /** Every campaign on a project without files leaves a recoverable disk whose
      history, the run in progress included, its own commands asked for. */
  lemma {:induction false} CampaignIsTold<M(!new), V(!new)>(env: Env<M, V>, plan: Plan<M>, events: seq<Event>)
    returns (history: seq<Word>, origins: seq<nat>)
    requires Plain(env, plan)
    ensures Recoverable(env, plan, history, Left(env, plan, events))
    ensures Told(env, plan, events, Owed(env, plan, history, Left(env, plan, events)), origins)
  {
    if events == [] {
      history, origins := [], [];
    } else {
      var n := |events| - 1;
      assert events == events[..n] + [events[n]];
      var earlier, places := CampaignIsTold(env, plan, events[..n]);
      history, origins := SurvivorIsTold(env, plan, events[..n], events[n], earlier, places);
    }
  }

  // ---------- resume ----------

  /** What an undisturbed resume that is accepted makes of a disk: the weights of
      the targets that the disk stands for, exactly if training to them succeeds. */
  ghost predicate Completes<M, V>(env: Env<M, V>, plan: Plan<M>, targets: seq<Word>, effect: Effect<M, V>) {
    && (effect.result == Completed <==> FinalWeights(env, plan, targets).Some?)
    && (effect.result == TrainingFailed <==> FinalWeights(env, plan, targets).None?)
    && (effect.result == Completed ==>
          effect.states != []
          && effect.states[|effect.states| - 1] == Disk(FinalWeights(env, plan, targets), None))
  }

  /** From any recoverable disk, an accepted resume that no signal ends finalizes
      the history that the disk stands for. */
  lemma RecoverableIsResumed<M(!new), V(!new)>(env: Env<M, V>, plan: Plan<M>, history: seq<Word>, disk: Disk<M, V>,
                                               stop: nat -> bool)
    requires Plain(env, plan) && Recoverable(env, plan, history, disk)
    requires ResumeDecision(env, plan, disk) != Refuse && forall e :: !stop(e)
    ensures Completes(env, plan, Owed(env, plan, history, disk), ResumeEffect(env, plan, disk, stop))
  {
    if InProgress(env, plan, history, disk) {
      InProgressFacts(env, plan, history, disk);
      ResumedInProgress(env, plan, history, disk, stop);
    } else {
      LeftoverIsSafe(env, plan, history, disk, stop);
    }
    hide InProgress, TrailOf, Perform, Restore, Settled, ResumeEffect, ResumeDecision, Extends;
  }

  lemma ResumedInProgress<M(!new), V(!new)>(env: Env<M, V>, plan: Plan<M>, history: seq<Word>, disk: Disk<M, V>,
                                            stop: nat -> bool)
    requires Plain(env, plan) && Recoverable(env, plan, history, disk) && InProgress(env, plan, history, disk)
    requires ResumeDecision(env, plan, disk) == TrainOn && forall e :: !stop(e)
    ensures Completes(env, plan, history + [disk.checkpoint.value.target], ResumeEffect(env, plan, disk, stop))
  {
    var ck := disk.checkpoint.value;
    var k := RecordedAt(env, Base(env, plan, history), ck);
    RangeIsSafe(env, plan, history, disk, stop, ck.target, k, Restore(env, ck));
    NeverInterrupted(env, disk, TrailOf(env, plan.interval, stop, Restore(env, ck), ck.target), ck.target);
    UnstoppedTrail(env, plan.interval, stop, Restore(env, ck), ck.target);
    hide Recoverable, InProgress, TrailOf, Perform, FinalWeights, Lineage, Restore, Resumes, SafeEffect;
  }

  lemma NeverInterrupted<M, V>(env: Env<M, V>, disk: Disk<M, V>, trail: Trail<M, V>, target: Word)
    ensures trail.end.Ended? ==> Perform(env, disk, trail, target).result != Interrupted
    ensures Perform(env, disk, trail, target).result == Completed ==> Perform(env, disk, trail, target).states != []
  {
  }

  lemma UnstoppedTrail<M, V>(env: Env<M, V>, interval: Word, stop: nat -> bool, start: Run<M, V>, target: Word)
    requires forall e :: !stop(e)
    ensures TrailOf(env, interval, stop, start, target).end.Ended?
  {
    if start.epoch < target {
      UnstoppedLoop(env, interval, stop, start, target);
    }
  }

  lemma {:induction false} UnstoppedLoop<M, V>(env: Env<M, V>, interval: Word, stop: nat -> bool, r: Run<M, V>,
                                               target: Word)
    requires (forall e :: !stop(e)) && r.epoch < target
    ensures TrailFrom(env, interval, stop, r, target).end.Ended?
    decreases target - r.epoch
  {
    TrailStep(env, interval, stop, r, target, []);
    if NextEpoch(env, r).Some? && Verdict(env, NextEpoch(env, r).value, target).None? {
      UnstoppedLoop(env, interval, stop, NextEpoch(env, r).value, target);
    }
  }

  /** The same without convergence controls, where resume is never refused. */
  lemma AlwaysAccepted<M(!new), V(!new)>(env: Env<M, V>, plan: Plan<M>, history: seq<Word>, disk: Disk<M, V>)
    requires Plain(env, plan) && Recoverable(env, plan, history, disk) && disk.checkpoint.Some?
    requires !env.settings.CanConverge()
    ensures ResumeDecision(env, plan, disk) != Refuse
  {
    ResumeIsAcceptedIff(env, plan, history, disk);
    if history != [] {
      FinalizedEpochs(env, plan, history);
    }
    if InProgress(env, plan, history, disk) {
      InProgressFacts(env, plan, history, disk);
    } else {
      LeftoverFacts(env, plan, history, disk);
    }
    hide InProgress, Leftover, ResumeDecision, FinalWeights, Lineage;
  }

  /** Whatever a campaign left, its checkpoint belongs to a target that the
      campaign's own commands asked for; and resume, where it is accepted and no
      signal ends it, finalizes the campaign's history up to that target, or fails
      exactly where uninterrupted training to it fails. Without convergence
      controls it is always accepted. */
  lemma ResumeRecovers<M(!new), V(!new)>(env: Env<M, V>, plan: Plan<M>, events: seq<Event>, stop: nat -> bool)
    returns (history: seq<Word>, targets: seq<Word>, origins: seq<nat>)
    requires Plain(env, plan) && Left(env, plan, events).checkpoint.Some? && forall e :: !stop(e)
    ensures var disk := Left(env, plan, events);
            var target := disk.checkpoint.value.target;
            && Recoverable(env, plan, history, disk)
            && targets == Owed(env, plan, history, disk)
            && (targets == history || targets == history + [target])
            && targets != [] && targets[|targets| - 1] == target
            && Told(env, plan, events, targets, origins)
            && (!env.settings.CanConverge() ==> ResumeDecision(env, plan, disk) != Refuse)
            && (ResumeDecision(env, plan, disk) != Refuse ==>
                  Completes(env, plan, targets, Execute(env, plan, disk, Resume(stop))))
  {
    hide Left, Recoverable, Owed, Told, Completes, ResumeDecision, ResumeEffect, Plain;
    var disk := Left(env, plan, events);
    history, origins := CampaignIsTold(env, plan, events);
    targets := Owed(env, plan, history, disk);
    OwedToCheckpoint(env, plan, history, disk);
    if !env.settings.CanConverge() {
      AlwaysAccepted(env, plan, history, disk);
    }
    if ResumeDecision(env, plan, disk) != Refuse {
      RecoverableIsResumed(env, plan, history, disk, stop);
    }
  }

  /** A checkpoint belongs to the last target that the files stand for. */
  lemma OwedToCheckpoint<M, V>(env: Env<M, V>, plan: Plan<M>, history: seq<Word>, disk: Disk<M, V>)
    requires Recoverable(env, plan, history, disk) && disk.checkpoint.Some?
    ensures var targets, target := Owed(env, plan, history, disk), disk.checkpoint.value.target;
            && (targets == history || targets == history + [target])
            && targets != [] && targets[|targets| - 1] == target
  {
    hide Lineage, FinalWeights, Extends;
  }

  // ---------- the campaign without its crashes ----------

  function Never(): nat -> bool {
    epoch => false
  }

  /** The same command with no signal pending. */
  function Calm(command: Command): Command {
    command.(stop := Never())
  }

  /** No signal, and every cut comes after the last file operation. */
  ghost predicate Undisturbed<M, V>(env: Env<M, V>, plan: Plan<M>, events: seq<Event>) {
    forall i :: 0 <= i < |events| ==> RunsToTheEnd(env, plan, events, i)
  }

  ghost predicate RunsToTheEnd<M, V>(env: Env<M, V>, plan: Plan<M>, events: seq<Event>, i: nat)
    requires i < |events|
  {
    && events[i].command.stop == Never()
    && events[i].cut >= |Execute(env, plan, Left(env, plan, events[..i]), events[i].command).states|
  }

  /** A command that is accepted and undisturbed finalizes what it asked for. */
  lemma CommandFinalizes<M(!new), V(!new)>(env: Env<M, V>, plan: Plan<M>, before: seq<Word>, target: Word,
                                           disk: Disk<M, V>, command: Command)
    requires Plain(env, plan) && Lineage(env, plan, before + [target])
    requires Begins(env, plan, before, target, disk, command) && Execute(env, plan, disk, command).result != Refused
    ensures var effect := Execute(env, plan, disk, Calm(command));
            && effect.states != []
            && effect.states[|effect.states| - 1] == Disk(FinalWeights(env, plan, before + [target]), None)
  {
    hide Perform, TrailOf, Lineage, Recoverable, SafeEffect, FinalWeights, Execute, Begins, Plain, Base, Resumes;
    var base := Base(env, plan, before);
    FirstOfRange(env, plan, before, target, disk, command);
    RangeIsSafe(env, plan, before, disk, Never(), target, 0, base);
    var trail := TrailOf(env, plan.interval, Never(), base, target);
    UnstoppedTrail(env, plan.interval, Never(), base, target);
    NeverInterrupted(env, disk, trail, target);
    CalmRange(env, plan, before, target, disk, command);
  }

  lemma FirstOfRange<M(!new), V(!new)>(env: Env<M, V>, plan: Plan<M>, before: seq<Word>, target: Word, disk: Disk<M, V>,
                                       command: Command)
    requires Lineage(env, plan, before + [target]) && Begins(env, plan, before, target, disk, command)
    ensures FinalWeights(env, plan, before + [target]).Some? && Lineage(env, plan, before)
    ensures Recoverable(env, plan, before, disk) && disk.checkpoint.None?
    ensures Resumes(env, Base(env, plan, before), target, 0, Base(env, plan, before))
    ensures before == [] ==> target == plan.epochs
  {
    BaseIsFresh(env, plan, before);
    assert (before + [target])[..|before|] == before;
    hide FinalWeights, Base;
  }

  lemma CalmRange<M(!new), V(!new)>(env: Env<M, V>, plan: Plan<M>, before: seq<Word>, target: Word, disk: Disk<M, V>,
                                    command: Command)
    requires Plain(env, plan) && Lineage(env, plan, before)
    requires Begins(env, plan, before, target, disk, command) && Execute(env, plan, disk, command).result != Refused
    ensures Execute(env, plan, disk, Calm(command))
         == Perform(env, disk, TrailOf(env, plan.interval, Never(), Base(env, plan, before), target), target)
  {
    hide Lineage, TrailOf, FinalWeights, ValidEnv;
    if command.TrainAdditional? {
      RefusedAlike(env, plan, disk, command.count, command.stop, Never());
      hide AdditionalEffect;
      AdditionalRange(env, plan, before, disk, command.count, Never());
    }
  }

  /** Signals have no part in what is refused. */
  lemma RefusedAlike<M, V>(env: Env<M, V>, plan: Plan<M>, disk: Disk<M, V>, count: Word, a: nat -> bool, b: nat -> bool)
    ensures AdditionalEffect(env, plan, disk, count, a).result == Refused
            <==> AdditionalEffect(env, plan, disk, count, b).result == Refused
  {
    hide TrailOf, WeightsOf, Checkpointed, StartFrom;
  }

  lemma UndisturbedStep<M, V>(env: Env<M, V>, plan: Plan<M>, events: seq<Event>,
                              command: Command) returns (event: Event)
    requires Undisturbed(env, plan, events) && command.stop == Never()
    requires Execute(env, plan, Left(env, plan, events), command).states != []
    ensures event.command == command && Undisturbed(env, plan, events + [event])
    ensures var states := Execute(env, plan, Left(env, plan, events), command).states;
            Left(env, plan, events + [event]) == states[|states| - 1]
  {
    hide Execute, Left, After;
    event := Event(command, |Execute(env, plan, Left(env, plan, events), command).states|);
    var longer := events + [event];
    LeftStep(env, plan, events, event);
    forall i | 0 <= i < |longer|
      ensures RunsToTheEnd(env, plan, longer, i)
    {
      if i < |events| {
        assert longer[..i] == events[..i];
        assert RunsToTheEnd(env, plan, events, i);
      } else {
        assert longer[..i] == events;
      }
    }
  }

  /** One more target of an uninterrupted history. */
  lemma HistoryStep<M(!new), V(!new)>(env: Env<M, V>, plan: Plan<M>, before: seq<Word>, target: Word,
                                      events: seq<Event>, command: Command) returns (event: Event)
    requires Plain(env, plan) && Lineage(env, plan, before + [target])
    requires Undisturbed(env, plan, events)
    requires Begins(env, plan, before, target, Left(env, plan, events), command)
    requires Execute(env, plan, Left(env, plan, events), command).result != Refused
    ensures event.command == Calm(command) && Undisturbed(env, plan, events + [event])
    ensures Left(env, plan, events + [event]) == Disk(FinalWeights(env, plan, before + [target]), None)
  {
    CommandFinalizes(env, plan, before, target, Left(env, plan, events), command);
    event := UndisturbedStep(env, plan, events, Calm(command));
  }

  /** The finalizing commands of a campaign, repeated without a crash or a signal,
      give the same weights. */
  lemma {:induction false} CampaignUndisturbed<M(!new), V(!new)>(
    env: Env<M, V>, plan: Plan<M>, events: seq<Event>, targets: seq<Word>, origins: seq<nat>)
    returns (calm: seq<Event>)
    requires Plain(env, plan) && Lineage(env, plan, targets) && Told(env, plan, events, targets, origins)
    ensures |calm| == |targets| && Undisturbed(env, plan, calm)
    ensures forall i :: 0 <= i < |calm| ==>
                          origins[i] < |events| && calm[i].command == Calm(events[origins[i]].command)
    ensures Left(env, plan, calm) == Disk(FinalWeights(env, plan, targets), None)
    decreases |targets|
  {
    hide FinalWeights, Undisturbed, Execute, Begins, Left, Base;
    if targets == [] {
      calm := [];
      NothingDone(env, plan);
    } else {
      var n := |targets| - 1;
      var before, target := targets[..n], targets[n];
      ToldPrefix(env, plan, events, targets, origins, n);
      var earlier := CampaignUndisturbed(env, plan, events, before, origins[..n]);
      assert targets == before + [target];
      assert Asked(env, plan, events, before, target, origins[n]);
      FilesAsAsked(env, plan, events, before, target, origins[n]);
      hide Told, Lineage, Asked;
      var last := HistoryStep(env, plan, before, target, earlier, events[origins[n]].command);
      calm := earlier + [last];
    }
  }

  lemma NothingDone<M, V>(env: Env<M, V>, plan: Plan<M>)
    ensures Undisturbed(env, plan, [])
    ensures Left<M, V>(env, plan, []) == Disk(FinalWeights(env, plan, []), None)
  {
  }

  lemma FilesAsAsked<M, V>(env: Env<M, V>, plan: Plan<M>, events: seq<Event>, before: seq<Word>, target: Word, at: nat)
    requires Asked(env, plan, events, before, target, at)
    ensures var disk := Disk(FinalWeights(env, plan, before), None);
            && Begins(env, plan, before, target, disk, events[at].command)
            && Execute(env, plan, disk, events[at].command).result != Refused
  {
    hide Execute, Left, Base, FinalWeights;
  }

  /** Crashes leave no trace: when an undisturbed resume completes, the files are
      those that the campaign's own finalizing commands, in their order and each
      run once to its end, make of an empty project. */
  lemma CrashesLeaveNoTrace<M(!new), V(!new)>(env: Env<M, V>, plan: Plan<M>, events: seq<Event>, stop: nat -> bool)
    returns (origins: seq<nat>, calm: seq<Event>)
    requires Plain(env, plan) && Left(env, plan, events).checkpoint.Some? && forall e :: !stop(e)
    requires Execute(env, plan, Left(env, plan, events), Resume(stop)).result == Completed
    ensures |calm| == |origins| && Undisturbed(env, plan, calm)
    ensures forall i :: 0 <= i < |calm| ==>
                          origins[i] < |events| && calm[i].command == Calm(events[origins[i]].command)
    ensures forall i, j :: 0 <= i < j < |origins| ==> origins[i] < origins[j]
    ensures var states := Execute(env, plan, Left(env, plan, events), Resume(stop)).states;
            states != [] && states[|states| - 1] == Left(env, plan, calm)
  {
    hide Recoverable, Undisturbed, FinalWeights, Execute, Left, ResumeDecision, Asked;
    var history, targets;
    history, targets, origins := ResumeRecovers(env, plan, events, stop);
    CompletedWasAccepted(env, plan, Left(env, plan, events), stop);
    OwedIsLineage(env, plan, history, targets, Left(env, plan, events));
    calm := CampaignUndisturbed(env, plan, events, targets, origins);
  }

  lemma CompletedWasAccepted<M, V>(env: Env<M, V>, plan: Plan<M>, disk: Disk<M, V>, stop: nat -> bool)
    requires Execute(env, plan, disk, Resume(stop)).result == Completed
    ensures ResumeDecision(env, plan, disk) != Refuse
  {
  }

  lemma OwedIsLineage<M, V>(env: Env<M, V>, plan: Plan<M>, history: seq<Word>, targets: seq<Word>, disk: Disk<M, V>)
    requires Recoverable(env, plan, history, disk) && FinalWeights(env, plan, targets).Some?
    requires targets == Owed(env, plan, history, disk)
    ensures Lineage(env, plan, targets)
  {
    if targets != history {
      NextTarget(env, plan, history, disk.checkpoint.value.target);
    }
  }

  lemma EpochsOfBase<M, V>(env: Env<M, V>, plan: Plan<M>, targets: seq<Word>)
    requires targets != [] && Lineage(env, plan, targets)
    ensures FinalWeights(env, plan, targets).Some?
    ensures Base(env, plan, targets).epoch == FinalWeights(env, plan, targets).value.completed
  {
  }

  /** Every lineage is the history of a campaign without a crash or a signal: a
      fresh run and then one additional run per target. */
  lemma {:induction false} UninterruptedHistory<M(!new), V(!new)>(env: Env<M, V>, plan: Plan<M>, targets: seq<Word>)
    returns (events: seq<Event>)
    requires Plain(env, plan) && !env.settings.CanConverge() && Lineage(env, plan, targets)
    ensures |events| == |targets| && Undisturbed(env, plan, events)
    ensures events != [] ==> events[0].command == TrainFresh(Never())
    ensures forall i :: 0 < i < |events| ==>
                          targets[i - 1] < targets[i]
                          && events[i].command == TrainAdditional(targets[i] - targets[i - 1], Never())
    ensures Left(env, plan, events) == Disk(FinalWeights(env, plan, targets), None)
    decreases |targets|
  {
    hide FinalWeights, Undisturbed, Execute, Begins, Left, Base;
    if targets == [] {
      events := [];
      NothingDone(env, plan);
    } else {
      var n := |targets| - 1;
      var before, target := targets[..n], targets[n];
      assert targets == before + [target];
      var earlier := UninterruptedHistory(env, plan, before);
      hide Lineage;
      var command := TrainFresh(Never());
      if n > 0 {
        TargetsGrow(env, plan, before, target);
        command := TrainAdditional(target - targets[n - 1], Never());
      }
      AcceptedNext(env, plan, before, target, command);
      var last := HistoryStep(env, plan, before, target, earlier, command);
      events := earlier + [last];
    }
  }

  lemma TargetsGrow<M(!new), V(!new)>(env: Env<M, V>, plan: Plan<M>, before: seq<Word>, target: Word)
    requires Plain(env, plan) && !env.settings.CanConverge() && Lineage(env, plan, before + [target]) && before != []
    ensures before[|before| - 1] < target
  {
    assert (before + [target])[..|before|] == before;
    FinalizedEpochs(env, plan, before);
    EpochsOfBase(env, plan, before);
    hide FinalWeights, Base;
  }

  lemma AcceptedNext<M(!new), V(!new)>(env: Env<M, V>, plan: Plan<M>, before: seq<Word>, target: Word, command: Command)
    requires Plain(env, plan) && !env.settings.CanConverge() && Lineage(env, plan, before + [target])
    requires before == [] ==> command == TrainFresh(Never())
    requires before != [] ==>
               before[|before| - 1] < target && command == TrainAdditional(target - before[|before| - 1], Never())
    ensures Begins(env, plan, before, target, Disk(FinalWeights(env, plan, before), None), command)
    ensures Execute(env, plan, Disk(FinalWeights(env, plan, before), None), command).result != Refused
  {
    assert (before + [target])[..|before|] == before;
    BaseIsFresh(env, plan, before);
    if before != [] {
      FinalizedEpochs(env, plan, before);
    }
    hide TrailOf, WeightsOf, Checkpointed;
  }

  // ---------- finalized epochs ----------

  ghost predicate NotBehind<M, V>(later: Disk<M, V>, earlier: Disk<M, V>) {
    earlier.weights.Some? ==>
      later.weights.Some? && earlier.weights.value.completed <= later.weights.value.completed
  }

  lemma RangeNeverFalls<M, V>(env: Env<M, V>, interval: Word, stop: nat -> bool, disk: Disk<M, V>, start: Run<M, V>,
                              target: Word)
    requires disk.weights.Some? ==> disk.weights.value.completed <= start.epoch
    ensures var states := Perform(env, disk, TrailOf(env, interval, stop, start, target), target).states;
            forall i :: 0 <= i < |states| ==> NotBehind(states[i], disk)
  {
    var trail := TrailOf(env, interval, stop, start, target);
    if trail.end.Ended? && trail.end.outcome.Finished? && start.epoch < target && start.control.reason == NoReason {
      LastSave(env, interval, stop, start, target);
    }
    hide TrailFrom, Loop;
  }

  /** Finalized epochs never go backwards, from any files whatever, with or without
      early stopping and convergence controls. */
  lemma {:induction false} FinalizedEpochsNeverFall<M, V>(env: Env<M, V>, plan: Plan<M>, disk: Disk<M, V>,
                                                          events: seq<Event>)
    ensures NotBehind(After(env, plan, disk, events), disk)
  {
    if events != [] {
      var n := |events| - 1;
      FinalizedEpochsNeverFall(env, plan, disk, events[..n]);
      var before := After(env, plan, disk, events[..n]);
      CommandNeverFalls(env, plan, before, events[n].command);
      hide Execute;
    }
  }

  lemma CommandNeverFalls<M, V>(env: Env<M, V>, plan: Plan<M>, disk: Disk<M, V>, command: Command)
    ensures var states := Execute(env, plan, disk, command).states;
            forall i :: 0 <= i < |states| ==> NotBehind(states[i], disk)
  {
    match command {
      case TrainFresh(stop) =>
      case Resume(stop) =>
        ResumeNeverFalls(env, plan, disk, stop);
      case TrainAdditional(count, stop) =>
        AdditionalNeverFalls(env, plan, disk, count, stop);
    }
    hide Perform, TrailOf;
  }

  lemma ResumeNeverFalls<M, V>(env: Env<M, V>, plan: Plan<M>, disk: Disk<M, V>, stop: nat -> bool)
    ensures var states := ResumeEffect(env, plan, disk, stop).states;
            forall i :: 0 <= i < |states| ==> NotBehind(states[i], disk)
  {
    hide Perform, TrailOf;
    if ResumeDecision(env, plan, disk) == TrainOn {
      var ck := disk.checkpoint.value;
      RangeNeverFalls(env, plan.interval, stop, disk, Restore(env, ck), ck.target);
    }
  }

  lemma AdditionalNeverFalls<M, V>(env: Env<M, V>, plan: Plan<M>, disk: Disk<M, V>, count: Word, stop: nat -> bool)
    ensures var states := AdditionalEffect(env, plan, disk, count, stop).states;
            forall i :: 0 <= i < |states| ==> NotBehind(states[i], disk)
  {
    hide Perform, TrailOf;
    if disk.weights.Some? && count <= SIZE_MAX - disk.weights.value.completed
       && StartFrom<M, V>(env, plan, disk.weights).Some? {
      var start: Run<M, V> := StartFrom(env, plan, disk.weights).value;
      RangeNeverFalls(env, plan.interval, stop, disk, start, disk.weights.value.completed + count);
    }
  }
}
