/** What the training digest vouches for: configurations with the same canonical
    stream train alike, to the same models and for the same reasons. */
module Provenance {
  import opened Options
  import opened Words
  import opened Schedule
  import opened Training
  import opened Digest

  /** The real number behind a bit pattern; the guards of the stream compare with
      zero as numbers do. */
  ghost predicate Numeric(value: Bits -> real) {
    forall x: Bits :: (Positive(x) <==> value(x) > 0.0) && (NonNegative(x) <==> value(x) >= 0.0)
  }

  function SettingsOf(value: Bits -> real, c: TrainingConfig): Settings {
    Settings(c.optimizer, value(c.learningRate), c.schedule, value(c.decay), c.stepEpochs, c.plateauPatience,
             value(c.plateauMinDelta), value(c.divergenceThreshold), value(c.targetLoss), c.maxNoImprovementEpochs,
             value(c.noImprovementMinDelta))
  }

  /** Whatever else a configuration determines, given what the stream holds, with
      its optimizer settings and its early stopping filled in. */
  ghost function EnvOf<M, V>(value: Bits -> real, world: Effective -> Env<M, V>, c: TrainingConfig, v: HexText)
    : Env<M, V>
  {
    world(EffectiveConfig(c, v)).(settings := SettingsOf(value, c), patience := c.earlyStoppingPatience,
                                  minDelta := value(c.earlyStoppingMinDelta))
  }

  // ---------- settings that act alike ----------

  predicate Controls(o: Settings) {
    o.divergenceThreshold > 0.0 || o.targetLoss >= 0.0 || o.noImprovementEpochs != 0
  }

  /** Equal but for the fields that are switched off. */
  predicate SettingsAlike(o: Settings, p: Settings) {
    && o.kind == p.kind && o.learningRate == p.learningRate && o.schedule == p.schedule
    && (o.schedule != Constant ==> o.decay == p.decay)
    && (o.schedule == Step ==> o.stepEpochs == p.stepEpochs)
    && (o.schedule == Plateau ==> o.plateauPatience == p.plateauPatience && o.plateauMinDelta == p.plateauMinDelta)
    && (Controls(o) <==> Controls(p))
    && (Controls(o) ==>
          o.divergenceThreshold == p.divergenceThreshold && o.targetLoss == p.targetLoss
          && o.noImprovementEpochs == p.noImprovementEpochs && o.noImprovementMinDelta == p.noImprovementMinDelta)
  }

  /** Equal but for the convergence memory, which counts only under its control. */
  predicate ControlsAlike(o: Settings, c: Control, d: Control) {
    && c == d.(convergenceBest := c.convergenceBest, convergenceStale := c.convergenceStale)
    && (Controls(o) ==> c == d)
  }

  lemma EqualStreamsSetAlike(value: Bits -> real, c: TrainingConfig, d: TrainingConfig, v: HexText, w: HexText)
    requires Numeric(value) && TrainingStream(c, v) == TrainingStream(d, w)
    ensures SettingsAlike(SettingsOf(value, c), SettingsOf(value, d))
    ensures EffectiveConfig(c, v) == EffectiveConfig(d, w)
    ensures c.earlyStoppingPatience == d.earlyStoppingPatience
    ensures c.earlyStoppingPatience != 0 ==> c.earlyStoppingMinDelta == d.earlyStoppingMinDelta
  {
    TrainingStreamIsDecodable(c, d, v, w);
    hide TrainingStream;
    var a, b := EffectiveConfig(c, v), EffectiveConfig(d, w);
    assert a.optimizer == b.optimizer && a.schedule == b.schedule && a.convergence == b.convergence
        && a.early == b.early;
    assert Controlled(c) <==> Controls(SettingsOf(value, c));
    assert Controlled(d) <==> Controls(SettingsOf(value, d));
  }

  lemma ObserveAlike(o: Settings, p: Settings, c: Control, d: Control, metric: real)
    requires SettingsAlike(o, p) && ControlsAlike(o, c, d)
    ensures match (Observe(o, c, metric), Observe(p, d, metric))
            case (None, None) => true
            case (Some(x), Some(y)) => ControlsAlike(o, x, y)
            case _ => false
  {
  }

  // ---------- training alike ----------

  ghost predicate EnvsAlike<M, V>(a: Env<M, V>, b: Env<M, V>) {
    && b == a.(settings := b.settings, minDelta := b.minDelta)
    && SettingsAlike(a.settings, b.settings)
    && (a.patience != 0 ==> a.minDelta == b.minDelta)
  }

  ghost predicate RunsAlike<M, V>(env: Env<M, V>, r: Run<M, V>, s: Run<M, V>) {
    && r == s.(control := r.control)
    && ControlsAlike(env.settings, r.control, s.control)
  }

  ghost predicate OutcomesAlike<M, V>(env: Env<M, V>, x: Outcome<M, V>, y: Outcome<M, V>) {
    match (x, y)
    case (Failed, Failed) => true
    case (Finished(r, c), Finished(s, d)) => RunsAlike(env, r, s) && c == d
    case _ => false
  }

  lemma {:induction false} UpdatesAlike<M, V>(a: Env<M, V>, b: Env<M, V>, m: M, v: V, rate: real, epoch: nat,
                                              batch: nat)
    requires EnvsAlike(a, b)
    ensures Updates(a, m, v, rate, epoch, batch) == Updates(b, m, v, rate, epoch, batch)
    decreases a.batches - batch
  {
    if batch < a.batches && a.update(m, v, rate, epoch, batch).Some? {
      var (next, moments) := a.update(m, v, rate, epoch, batch).value;
      UpdatesAlike(a, b, next, moments, rate, epoch, batch + 1);
    }
  }

  lemma NextEpochAlike<M, V>(a: Env<M, V>, b: Env<M, V>, r: Run<M, V>, s: Run<M, V>)
    requires EnvsAlike(a, b) && RunsAlike(a, r, s) && r.epoch < SIZE_MAX
    ensures match (NextEpoch(a, r), NextEpoch(b, s))
            case (None, None) => true
            case (Some(x), Some(y)) => RunsAlike(a, x, y)
            case _ => false
  {
    UpdatesAlike(a, b, r.model, r.moments, r.control.rate, r.epoch, 0);
    var updated := Updates(a, r.model, r.moments, r.control.rate, r.epoch, 0);
    if updated.Some? && a.objective(updated.value.0).Some? {
      ObserveAlike(a.settings, b.settings, r.control, s.control, a.objective(updated.value.0).value);
    }
    hide Updates, Observe, SettingsAlike;
  }

  lemma {:induction false} LoopAlike<M, V>(a: Env<M, V>, b: Env<M, V>, r: Run<M, V>, s: Run<M, V>, target: Word)
    requires EnvsAlike(a, b) && RunsAlike(a, r, s) && r.epoch < target
    ensures OutcomesAlike(a, Loop(a, r, target), Loop(b, s, target))
    decreases target - r.epoch
  {
    NextEpochAlike(a, b, r, s);
    if NextEpoch(a, r).Some? {
      var x, y := NextEpoch(a, r).value, NextEpoch(b, s).value;
      if Verdict(a, x, target).None? && r.epoch < x.epoch < target {
        LoopAlike(a, b, x, y, target);
      }
    }
    hide NextEpoch, SettingsAlike;
  }

  /** Equal streams, equal training: the same failure, or the same model, moments,
      epochs, learning rate, selection and reason; only the memory of a convergence
      rule that is switched off may differ. */
  lemma EqualStreamsTrainAlike<M, V>(value: Bits -> real, world: Effective -> Env<M, V>, c: TrainingConfig,
                                     d: TrainingConfig, v: HexText, w: HexText, model: M, epoch: Word,
                                     best: Option<Best<M>>, target: Word)
    requires Numeric(value) && TrainingStream(c, v) == TrainingStream(d, w)
    ensures var a, b := EnvOf(value, world, c, v), EnvOf(value, world, d, w);
            OutcomesAlike(a, Train(a, Begin(a, model, epoch, best), target),
                          Train(b, Begin(b, model, epoch, best), target))
  {
    EqualStreamsSetAlike(value, c, d, v, w);
    var a, b := EnvOf(value, world, c, v), EnvOf(value, world, d, w);
    var r, s := Begin(a, model, epoch, best), Begin(b, model, epoch, best);
    hide TrainingStream, EffectiveConfig;
    assert EnvsAlike(a, b) && RunsAlike(a, r, s);
    if epoch < target {
      LoopAlike(a, b, r, s, target);
    }
    hide Loop;
  }
}
