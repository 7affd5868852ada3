/** The epoch loop, its observers and its checkpoints. Models and moments are
    abstract: one batch update, the objective and the validation loss are
    deterministic functions of them. */
module Training {
  import opened Options
  import opened Words
  import opened Schedule

  datatype Env<!M, !V> = Env(
    settings: Settings,
    batches: nat,
    update: (M, V, real, nat, nat) -> Option<(M, V)>,   // model, moments, rate, epoch, batch
    objective: M -> Option<real>,
    validation: M -> Option<real>,
    patience: Word, minDelta: real,                     // early stopping; patience 0 is off
    freshMoments: V)

  /** Gradient descent owns no moments; everything else is free. */
  ghost predicate ValidEnv<M(!new), V(!new)>(env: Env<M, V>) {
    && env.settings.Valid()
    && env.minDelta >= 0.0
    && (env.settings.kind == GradientDescent ==>
          forall m, v, rate, epoch, batch ::
            env.update(m, v, rate, epoch, batch).Some? ==> env.update(m, v, rate, epoch, batch).value.1 == v)
  }

  datatype Best<M> = Best(loss: real, epoch: nat, model: M)

  datatype Run<M, V> = Run(
    model: M, moments: V, control: Control, epoch: Word, best: Option<Best<M>>, stale: nat)

  datatype Completion = TargetEpochs | LossTargetReached | NoImprovementReached | StoppedEarly

  /** The saver of final weights refuses metadata that it would not load again. */
  predicate SaverAccepts(completed: nat, selected: nat, target: nat, reason: Completion) {
    && 0 < target && 0 < selected <= completed <= target
    && (reason == TargetEpochs <==> completed == target)
  }

  datatype Outcome<M, V> = Failed | Finished(run: Run<M, V>, completion: Completion)

  /** A run that starts from a model alone: fresh and additional training. */
  function Begin<M, V>(env: Env<M, V>, model: M, epoch: Word, best: Option<Best<M>>): Run<M, V> {
    Run(model, env.freshMoments, Fresh(env.settings), epoch, best, 0)
  }

  // ---------- one epoch ----------

  function Updates<M, V>(env: Env<M, V>, m: M, v: V, rate: real, epoch: nat, batch: nat): Option<(M, V)>
    decreases env.batches - batch
  {
    if batch >= env.batches then
      Some((m, v))
    else
      match env.update(m, v, rate, epoch, batch)
      case None => None
      case Some((m', v')) => Updates(env, m', v', rate, epoch, batch + 1)
  }

  /** Batch after batch: every update of an epoch once, in order, at one rate. */
  ghost predicate BatchTrace<M, V>(env: Env<M, V>, rate: real, epoch: nat, from: nat, trace: seq<(M, V)>) {
    && from <= env.batches && |trace| == env.batches - from + 1
    && forall i :: 0 <= i < |trace| - 1 ==>
         env.update(trace[i].0, trace[i].1, rate, epoch, from + i) == Some(trace[i + 1])
  }

  lemma {:induction false} UpdatesTrace<M, V>(env: Env<M, V>, m: M, v: V, rate: real, epoch: nat, from: nat)
    returns (trace: seq<(M, V)>)
    requires from <= env.batches && Updates(env, m, v, rate, epoch, from).Some?
    ensures BatchTrace(env, rate, epoch, from, trace) && trace[0] == (m, v)
    ensures trace[env.batches - from] == Updates(env, m, v, rate, epoch, from).value
    decreases env.batches - from
  {
    if from == env.batches {
      trace := [(m, v)];
    } else {
      var (next, moments) := env.update(m, v, rate, epoch, from).value;
      var rest := UpdatesTrace(env, next, moments, rate, epoch, from + 1);
      trace := [(m, v)] + rest;
    }
  }

  lemma {:induction false} TraceIsUpdates<M, V>(env: Env<M, V>, rate: real, epoch: nat, from: nat, trace: seq<(M, V)>)
    requires BatchTrace(env, rate, epoch, from, trace)
    ensures Updates(env, trace[0].0, trace[0].1, rate, epoch, from) == Some(trace[env.batches - from])
    decreases env.batches - from
  {
    if from < env.batches {
      assert env.update(trace[0].0, trace[0].1, rate, epoch, from + 0) == Some(trace[1]);
      TraceIsUpdates(env, rate, epoch, from + 1, trace[1..]);
    }
  }

  ghost predicate LeadsTo<M(!new), V(!new)>(env: Env<M, V>, rate: real, epoch: nat, start: (M, V), end: (M, V)) {
    exists trace: seq<(M, V)> ::
      BatchTrace(env, rate, epoch, 0, trace) && trace[0] == start && trace[env.batches] == end
  }

  /** The updates of an epoch end exactly where such a trace leads. */
  lemma UpdatesAreTrace<M(!new), V(!new)>(env: Env<M, V>, m: M, v: V, rate: real, epoch: nat, end: (M, V))
    ensures Updates(env, m, v, rate, epoch, 0) == Some(end) <==> LeadsTo(env, rate, epoch, (m, v), end)
  {
    hide Updates;
    if Updates(env, m, v, rate, epoch, 0) == Some(end) {
      var trace := UpdatesTrace(env, m, v, rate, epoch, 0);
    }
    if LeadsTo(env, rate, epoch, (m, v), end) {
      var trace: seq<(M, V)> :| BatchTrace(env, rate, epoch, 0, trace) && trace[0] == (m, v)
                                && trace[env.batches] == end;
      TraceIsUpdates(env, rate, epoch, 0, trace);
    }
  }

  /** The early-stopping observer: validation loss, best model, stale count. */
  function Watched<M, V>(env: Env<M, V>, r: Run<M, V>): Option<Run<M, V>> {
    if env.patience == 0 then
      Some(r)
    else
      match env.validation(r.model)
      case None => None
      case Some(loss) =>
        if r.best.None? || r.best.value.loss - loss > env.minDelta then
          Some(r.(best := Some(Best(loss, r.epoch, r.model)), stale := 0))
        else
          Some(r.(stale := r.stale + 1))
  }

  function NextEpoch<M, V>(env: Env<M, V>, r: Run<M, V>): Option<Run<M, V>>
    requires r.epoch < SIZE_MAX
  {
    match Updates(env, r.model, r.moments, r.control.rate, r.epoch, 0)
    case None => None
    case Some((m, v)) =>
      match env.objective(m)
      case None => None
      case Some(objective) =>
        match Observe(env.settings, r.control, objective)
        case None => None
        case Some(control) => Watched(env, r.(model := m, moments := v, control := control, epoch := r.epoch + 1))
  }

  /** Why training stops after an observed epoch; None is to go on. */
  function Verdict<M, V>(env: Env<M, V>, r: Run<M, V>, target: Word): Option<Completion> {
    if env.patience != 0 && r.stale >= env.patience then Some(StoppedEarly)
    else if r.epoch == target then Some(TargetEpochs)
    else ReasonOf(r.control)
  }

  function ReasonOf(c: Control): Option<Completion> {
    ReasonName(c.reason)
  }

  function ReasonName(reason: Reason): Option<Completion> {
    match reason
    case NoReason => None
    case LossTarget => Some(LossTargetReached)
    case NoImprovement => Some(NoImprovementReached)
  }

  function Loop<M, V>(env: Env<M, V>, r: Run<M, V>, target: Word): Outcome<M, V>
    requires r.epoch < target
    decreases target - r.epoch
  {
    match NextEpoch(env, r)
    case None => Failed
    case Some(next) =>
      match Verdict(env, next, target)
      case Some(completion) => Finished(next, completion)
      case None => if next.epoch <= r.epoch || next.epoch >= target then Failed else Loop(env, next, target)
  }

  function Train<M, V>(env: Env<M, V>, r: Run<M, V>, target: Word): Outcome<M, V> {
    if target == 0 || r.epoch > target then
      Failed
    else if r.epoch == target || r.control.reason != NoReason then
      match env.objective(r.model)
      case None => Failed
      case Some(_) => Finished(r, if r.epoch == target then TargetEpochs else ReasonOf(r.control).value)
    else
      Loop(env, r, target)
  }

  lemma NextEpochCounts<M, V>(env: Env<M, V>, r: Run<M, V>)
    requires r.epoch < SIZE_MAX && NextEpoch(env, r).Some?
    ensures NextEpoch(env, r).value.epoch == r.epoch + 1
  {
  }

  // ---------- the trainer ----------

  /** Model, optimizer and observer of one training command, updated in place. A
      failed step leaves them half way; its caller gives up. */
  class Trainer<M, V> {
    const env: Env<M, V>
    var model: M
    var moments: V
    var control: Control
    var epoch: Word
    var hasBest: bool
    var bestLoss: real
    var bestEpoch: nat
    var bestModel: M
    var stale: nat

    function Value(): Run<M, V>
      reads this
    {
      Run(model, moments, control, epoch, if hasBest then Some(Best(bestLoss, bestEpoch, bestModel)) else None, stale)
    }

    constructor (env: Env<M, V>, start: Run<M, V>)
      ensures this.env == env && Value() == start
    {
      this.env := env;
      model, moments, control, epoch := start.model, start.moments, start.control, start.epoch;
      hasBest, stale := start.best.Some?, start.stale;
      match start.best {
        case None => bestLoss, bestEpoch, bestModel := 0.0, 0, start.model;
        case Some(best) => bestLoss, bestEpoch, bestModel := best.loss, best.epoch, best.model;
      }
    }

    /** All batches of one epoch. */
    method RunBatches() returns (ok: bool)
      modifies this`model, this`moments
      ensures match Updates(env, old(model), old(moments), control.rate, epoch, 0)
              case None => !ok
              case Some((m, v)) => ok && model == m && moments == v
    {
      var rate := control.rate;
      var batch := 0;
      while batch < env.batches
        invariant 0 <= batch
        invariant Updates(env, model, moments, rate, epoch, batch)
               == Updates(env, old(model), old(moments), rate, epoch, 0)
      {
        match env.update(model, moments, rate, epoch, batch) {
          case None =>
            return false;
          case Some((m, v)) =>
            model, moments := m, v;
        }
        batch := batch + 1;
      }
      ok := true;
    }

    /** The early-stopping observer. */
    method Watch() returns (ok: bool)
      modifies this`hasBest, this`bestLoss, this`bestEpoch, this`bestModel, this`stale
      ensures match Watched(env, old(Value()))
              case None => !ok
              case Some(next) => ok && Value() == next
    {
      if env.patience == 0 {
        return true;
      }
      var loss := env.validation(model);
      if loss.None? {
        return false;
      }
      if !hasBest || bestLoss - loss.value > env.minDelta {
        bestModel := model;
        bestLoss, bestEpoch, stale, hasBest := loss.value, epoch, 0, true;
      } else {
        stale := stale + 1;
      }
      ok := true;
    }

    method RunEpoch() returns (ok: bool)
      requires epoch < SIZE_MAX
      modifies this
      ensures match NextEpoch(env, old(Value()))
              case None => !ok
              case Some(next) => ok && Value() == next
    {
      ok := RunBatches();
      if !ok {
        return;
      }
      var objective := env.objective(model);
      if objective.None? {
        return false;
      }
      var observed := Observe(env.settings, control, objective.value);
      if observed.None? {
        return false;
      }
      control, epoch := observed.value, epoch + 1;
      ok := Watch();
    }

    /** The whole range; the result says why training ended. */
    method TrainRange(target: Word) returns (completion: Option<Completion>)
      modifies this
      ensures match Train(env, old(Value()), target)
              case Failed => completion == None
              case Finished(run, reason) => completion == Some(reason) && Value() == run
    {
      if target == 0 || epoch > target {
        return None;
      }
      if epoch == target || control.reason != NoReason {
        var objective := env.objective(model);
        if objective.None? {
          return None;
        }
        return if epoch == target then Some(TargetEpochs) else ReasonOf(control);
      }
      while true
        invariant epoch < target
        invariant Loop(env, Value(), target) == Loop(env, old(Value()), target)
        decreases target - epoch
      {
        ghost var before := Value();
        var ok := RunEpoch();
        if !ok {
          return None;
        }
        NextEpochCounts(env, before);
        completion := if env.patience != 0 && stale >= env.patience then Some(StoppedEarly)
                      else if epoch == target then Some(TargetEpochs)
                      else ReasonOf(control);
        if completion.Some? {
          return;
        }
      }
    }
  }

  // ---------- checkpoints ----------

  /** What a checkpoint file carries: optimizer state only when it is required. */
  datatype Saved<M, V> = Saved(
    model: M, epoch: Word, target: Word, state: Option<(V, Control)>, best: Option<Best<M>>, stale: nat)

  function Save<M, V>(env: Env<M, V>, r: Run<M, V>, target: Word): Saved<M, V> {
    Saved(r.model, r.epoch, target,
          if env.settings.RequiresState() then Some((r.moments, r.control)) else None,
          r.best, r.stale)
  }

  /** Loading installs saved state over a freshly created optimizer. */
  function Restore<M, V>(env: Env<M, V>, s: Saved<M, V>): Run<M, V> {
    match s.state
    case Some((moments, control)) => Run(s.model, moments, control, s.epoch, s.best, s.stale)
    case None => Run(s.model, env.freshMoments, Fresh(env.settings), s.epoch, s.best, s.stale)
  }

  /** What every run keeps: the control has seen at most the epochs of the run,
      and where checkpoints omit the state it could not have mattered. */
  ghost predicate Sound<M, V>(env: Env<M, V>, r: Run<M, V>) {
    && r.control.completed <= r.epoch
    && (!env.settings.RequiresState() ==>
          r.moments == env.freshMoments && r.control.rate == env.settings.learningRate
          && r.control.reason == NoReason)
  }

  lemma BeginIsSound<M, V>(env: Env<M, V>, model: M, epoch: Word, best: Option<Best<M>>)
    ensures Sound(env, Begin(env, model, epoch, best))
  {
  }

  lemma {:induction false} UpdatesKeepMoments<M(!new), V(!new)>(env: Env<M, V>, m: M, v: V, rate: real, epoch: nat,
                                                                batch: nat)
    requires ValidEnv(env) && env.settings.kind == GradientDescent
    requires Updates(env, m, v, rate, epoch, batch).Some?
    ensures Updates(env, m, v, rate, epoch, batch).value.1 == v
    decreases env.batches - batch
  {
    if batch < env.batches {
      var step := env.update(m, v, rate, epoch, batch).value;
      UpdatesKeepMoments(env, step.0, step.1, rate, epoch, batch + 1);
    }
  }

  lemma NextEpochIsSound<M(!new), V(!new)>(env: Env<M, V>, r: Run<M, V>)
    requires ValidEnv(env) && Sound(env, r) && r.epoch < SIZE_MAX && NextEpoch(env, r).Some?
    ensures Sound(env, NextEpoch(env, r).value)
  {
    var updated := Updates(env, r.model, r.moments, r.control.rate, r.epoch, 0).value;
    var objective := env.objective(updated.0).value;
    ObserveCounts(env.settings, r.control, objective);
    if !env.settings.RequiresState() {
      UpdatesKeepMoments(env, r.model, r.moments, r.control.rate, r.epoch, 0);
      StatelessControl(env.settings, r.control, objective);
    }
  }

  lemma ObserveCounts(o: Settings, c: Control, metric: real)
    requires Observe(o, c, metric).Some?
    ensures Observe(o, c, metric).value.completed == c.completed + 1
  {
  }

  // ---------- resume equivalence ----------

  /** Two runs that cannot be told apart by what they will do. */
  ghost predicate Similar<M, V>(env: Env<M, V>, a: Run<M, V>, b: Run<M, V>) {
    && Sound(env, a) && Sound(env, b)
    && a.model == b.model && a.moments == b.moments && a.epoch == b.epoch
    && a.best == b.best && a.stale == b.stale
    && (env.settings.RequiresState() ==> a.control == b.control)
  }

  ghost predicate SameOutcome<M, V>(env: Env<M, V>, a: Outcome<M, V>, b: Outcome<M, V>) {
    match (a, b)
    case (Failed, Failed) => true
    case (Finished(r, c), Finished(s, d)) => Similar(env, r, s) && c == d
    case _ => false
  }

  lemma RestoredIsSimilar<M, V>(env: Env<M, V>, r: Run<M, V>, target: Word)
    requires Sound(env, r)
    ensures Similar(env, r, Restore(env, Save(env, r, target)))
  {
  }

  lemma NextEpochSimilar<M(!new), V(!new)>(env: Env<M, V>, a: Run<M, V>, b: Run<M, V>)
    requires ValidEnv(env) && Similar(env, a, b) && a.epoch < SIZE_MAX
    ensures match (NextEpoch(env, a), NextEpoch(env, b))
            case (None, None) => true
            case (Some(x), Some(y)) => Similar(env, x, y)
            case _ => false
  {
    if NextEpoch(env, a).Some? {
      NextEpochIsSound(env, a);
    }
    if NextEpoch(env, b).Some? {
      NextEpochIsSound(env, b);
    }
    var updated := Updates(env, a.model, a.moments, a.control.rate, a.epoch, 0);
    if !env.settings.RequiresState() && updated.Some? && env.objective(updated.value.0).Some? {
      var objective := env.objective(updated.value.0).value;
      StatelessControl(env.settings, a.control, objective);
      StatelessControl(env.settings, b.control, objective);
    }
  }

  lemma {:induction false} LoopSimilar<M(!new), V(!new)>(env: Env<M, V>, a: Run<M, V>, b: Run<M, V>, target: Word)
    requires ValidEnv(env) && Similar(env, a, b) && a.epoch < target
    ensures SameOutcome(env, Loop(env, a, target), Loop(env, b, target))
    decreases target - a.epoch
  {
    NextEpochSimilar(env, a, b);
    if NextEpoch(env, a).Some? {
      var x, y := NextEpoch(env, a).value, NextEpoch(env, b).value;
      NextEpochCounts(env, a);
      if Verdict(env, x, target).None? && x.epoch < target {
        LoopSimilar(env, x, y, target);
      }
    }
  }

  lemma {:induction false} LoopAdvances<M, V>(env: Env<M, V>, r: Run<M, V>, target: Word)
    requires r.epoch < target && Loop(env, r, target).Finished?
    ensures r.epoch < Loop(env, r, target).run.epoch <= target
    decreases target - r.epoch
  {
    NextEpochCounts(env, r);
    var next := NextEpoch(env, r).value;
    if Verdict(env, next, target).None? {
      LoopAdvances(env, next, target);
    }
  }

  /** The state of the unbroken run right after its k-th epoch was observed. */
  function RunAt<M, V>(env: Env<M, V>, start: Run<M, V>, target: Word, k: nat): Option<Run<M, V>> {
    if k == 0 then
      if start.epoch < target && start.control.reason == NoReason then Some(start) else None
    else
      match RunAt(env, start, target, k - 1)
      case None => None
      case Some(r) =>
        if r.epoch >= target || (k > 1 && Verdict(env, r, target).Some?) then None else NextEpoch(env, r)
  }

  /** What the trainer does once an observed epoch has been reported. */
  function Continue<M, V>(env: Env<M, V>, r: Run<M, V>, target: Word): Outcome<M, V> {
    match Verdict(env, r, target)
    case Some(completion) => Finished(r, completion)
    case None => if r.epoch < target then Loop(env, r, target) else Failed
  }

  lemma {:induction false} RunAtIsOnTheWay<M, V>(env: Env<M, V>, start: Run<M, V>, target: Word, k: nat)
    requires k > 0 && RunAt(env, start, target, k).Some?
    ensures var r := RunAt(env, start, target, k).value;
            && r.epoch == start.epoch + k <= target
            && Train(env, start, target) == Continue(env, r, target)
            && env.objective(r.model).Some?
  {
    var before := RunAt(env, start, target, k - 1).value;
    NextEpochCounts(env, before);
    if k > 1 {
      RunAtIsOnTheWay(env, start, target, k - 1);
    }
  }

  lemma {:induction false} RunAtIsSound<M(!new), V(!new)>(env: Env<M, V>, start: Run<M, V>, target: Word, k: nat)
    requires ValidEnv(env) && Sound(env, start) && RunAt(env, start, target, k).Some?
    ensures Sound(env, RunAt(env, start, target, k).value)
  {
    if k > 0 {
      RunAtIsSound(env, start, target, k - 1);
      NextEpochIsSound(env, RunAt(env, start, target, k - 1).value);
    }
  }

  /** Resume equivalence, and exactly when it holds: saving after any epoch,
      loading and training on gives the model, epoch count and completion reason
      of the unbroken run if and only if the stale count had not yet reached the
      patience. */
  lemma ResumeEquivalence<M(!new), V(!new)>(env: Env<M, V>, start: Run<M, V>, target: Word, k: nat)
    requires ValidEnv(env) && Sound(env, start)
    requires k > 0 && RunAt(env, start, target, k).Some?
    ensures var r := RunAt(env, start, target, k).value;
            var resumed := Train(env, Restore(env, Save(env, r, target)), target);
            SameOutcome(env, Train(env, start, target), resumed)
            <==> !(env.patience != 0 && r.stale >= env.patience)
  {
    var r := RunAt(env, start, target, k).value;
    RunAtIsOnTheWay(env, start, target, k);
    RunAtIsSound(env, start, target, k);
    RestoredIsSimilar(env, r, target);
    var again := Restore(env, Save(env, r, target));
    if r.epoch < target && r.control.reason == NoReason {
      assert again.control.reason == NoReason;
      if env.patience != 0 && r.stale >= env.patience {
        if Loop(env, again, target).Finished? {
          LoopAdvances(env, again, target);
        }
      } else {
        LoopSimilar(env, r, again, target);
      }
    }
  }
}
