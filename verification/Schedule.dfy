/** What an optimizer learns from the objective of each epoch: the learning-rate
    schedule and the convergence control. Rates and losses are real numbers. */
module Schedule {
  import opened Options
  import opened Words

  datatype Kind = GradientDescent | Momentum | Adam
  datatype ScheduleKind = Constant | Step | Exponential | Plateau
  datatype Reason = NoReason | LossTarget | NoImprovement

  datatype Settings = Settings(
    kind: Kind, learningRate: real,
    schedule: ScheduleKind, decay: real, stepEpochs: Word, plateauPatience: Word, plateauMinDelta: real,
    divergenceThreshold: real, targetLoss: real, noImprovementEpochs: Word, noImprovementMinDelta: real)
  {
    predicate Valid() {
      && learningRate > 0.0
      && (schedule != Constant ==> 0.0 < decay < 1.0)
      && (schedule == Step ==> stepEpochs != 0)
      && (schedule == Plateau ==> plateauPatience != 0 && plateauMinDelta >= 0.0)
      && divergenceThreshold >= 0.0 && targetLoss >= -1.0 && noImprovementMinDelta >= 0.0
    }

    /** Whether a checkpoint must carry optimizer state. */
    predicate RequiresState() {
      kind != GradientDescent || schedule != Constant || divergenceThreshold > 0.0
      || targetLoss >= 0.0 || noImprovementEpochs != 0
    }

    predicate CanConverge() {
      targetLoss >= 0.0 || noImprovementEpochs != 0
    }
  }

  /** The best-so-far fields are None where the program holds infinity. */
  datatype Control = Control(
    rate: real, completed: Word, nextTransition: Word, stale: Word, best: Option<real>,
    convergenceStale: Word, convergenceBest: Option<real>, reason: Reason)

  function Fresh(o: Settings): Control {
    Control(o.learningRate, 0, if o.schedule == Step then o.stepEpochs else 1, 0, None, 0, None, NoReason)
  }

  function Decayed(rate: real, decay: real): real {
    rate * decay
  }

  /** The schedule part of one observation; None when the counter overflows. */
  function ObserveSchedule(o: Settings, c: Control, metric: real): (r: Option<Control>)
    requires c.completed < SIZE_MAX
    ensures r.Some? ==> r.value.reason == c.reason && r.value.convergenceStale == c.convergenceStale
                        && r.value.convergenceBest == c.convergenceBest
  {
    var completed: Word := c.completed + 1;
    var following: Word := if completed == SIZE_MAX then SIZE_MAX else completed + 1;
    match o.schedule
    case Constant => Some(c.(completed := completed))
    case Step =>
      if completed == c.nextTransition then
        Some(c.(completed := completed, rate := Decayed(c.rate, o.decay),
                nextTransition := if c.nextTransition > SIZE_MAX - o.stepEpochs then SIZE_MAX
                                  else c.nextTransition + o.stepEpochs))
      else
        Some(c.(completed := completed))
    case Exponential =>
      Some(c.(completed := completed, rate := Decayed(c.rate, o.decay), nextTransition := following))
    case Plateau =>
      if c.best.None? || c.best.value - metric > o.plateauMinDelta then
        Some(c.(completed := completed, best := Some(metric), stale := 0))
      else if c.stale == SIZE_MAX then
        None
      else if c.stale + 1 >= o.plateauPatience then
        Some(c.(completed := completed, rate := Decayed(c.rate, o.decay), stale := 0, nextTransition := following))
      else
        Some(c.(completed := completed, stale := c.stale + 1))
  }

  function ObserveConvergence(o: Settings, c: Control, metric: real): (r: Option<Control>)
    ensures r.Some? ==> r.value.rate == c.rate && r.value.completed == c.completed
                        && r.value.nextTransition == c.nextTransition
                        && r.value.stale == c.stale && r.value.best == c.best
  {
    var improved := c.convergenceBest.None? || c.convergenceBest.value - metric > o.noImprovementMinDelta;
    if !improved && o.noImprovementEpochs != 0 && c.convergenceStale == SIZE_MAX then
      None
    else
      var best := if improved then Some(metric) else c.convergenceBest;
      var stale: Word := if improved then 0
                         else if o.noImprovementEpochs != 0 then c.convergenceStale + 1
                         else c.convergenceStale;
      var reason := if o.targetLoss >= 0.0 && metric <= o.targetLoss then LossTarget
                    else if o.noImprovementEpochs != 0 && stale >= o.noImprovementEpochs then NoImprovement
                    else c.reason;
      Some(c.(convergenceBest := best, convergenceStale := stale, reason := reason))
  }

  /** One observed epoch; None is a refusal. */
  function Observe(o: Settings, c: Control, metric: real): Option<Control> {
    if c.completed == SIZE_MAX then
      None
    else if o.divergenceThreshold > 0.0 && metric > o.divergenceThreshold then
      None
    else
      match ObserveSchedule(o, c, metric)
      case None => None
      case Some(scheduled) =>
        if scheduled.rate <= 0.0 then None else ObserveConvergence(o, scheduled, metric)
  }

  /** The control state after a whole history of objectives. */
  function ObserveAll(o: Settings, metrics: seq<real>): Option<Control> {
    if metrics == [] then
      Some(Fresh(o))
    else
      match ObserveAll(o, metrics[..|metrics| - 1])
      case None => None
      case Some(c) => Observe(o, c, metrics[|metrics| - 1])
  }

  // ---------- the object ----------

  class EpochControl {
    const o: Settings
    var rate: real
    var completed: Word
    var nextTransition: Word
    var stale: Word
    var best: Option<real>
    var convergenceStale: Word
    var convergenceBest: Option<real>
    var reason: Reason

    ghost function Value(): Control
      reads this
    {
      Control(rate, completed, nextTransition, stale, best, convergenceStale, convergenceBest, reason)
    }

    constructor (o: Settings)
      ensures this.o == o && Value() == Fresh(o)
    {
      this.o := o;
      rate, completed, nextTransition := o.learningRate, 0, if o.schedule == Step then o.stepEpochs else 1;
      stale, best := 0, None;
      convergenceStale, convergenceBest, reason := 0, None, NoReason;
    }

    /** The schedule's candidate values; the fields stay untouched. */
    method ScheduleCandidate(metric: real)
      returns (ok: bool, newRate: real, newNext: Word, newStale: Word, newBest: Option<real>)
      requires completed < SIZE_MAX
      ensures match ObserveSchedule(o, Value(), metric)
              case None => !ok
              case Some(c) => ok && c == Value().(completed := completed + 1, rate := newRate,
                                                  nextTransition := newNext, stale := newStale, best := newBest)
    {
      var newCompleted: Word := completed + 1;
      var following: Word := if newCompleted == SIZE_MAX then SIZE_MAX else newCompleted + 1;
      ok, newRate, newNext, newStale, newBest := true, rate, nextTransition, stale, best;
      if o.schedule == Step && newCompleted == nextTransition {
        newRate := Decayed(rate, o.decay);
        newNext := if newNext > SIZE_MAX - o.stepEpochs then SIZE_MAX else newNext + o.stepEpochs;
      } else if o.schedule == Exponential {
        newRate := Decayed(rate, o.decay);
        newNext := following;
      } else if o.schedule == Plateau {
        if newBest.None? || newBest.value - metric > o.plateauMinDelta {
          newBest, newStale := Some(metric), 0;
        } else {
          if newStale == SIZE_MAX {
            ok := false;
            return;
          }
          newStale := newStale + 1;
          if newStale >= o.plateauPatience {
            newRate, newStale, newNext := Decayed(rate, o.decay), 0, following;
          }
        }
      }
    }

    method ConvergenceCandidate(metric: real)
      returns (ok: bool, newBest: Option<real>, newStale: Word, newReason: Reason)
      ensures match ObserveConvergence(o, Value(), metric)
              case None => !ok
              case Some(c) => ok && c == Value().(convergenceBest := newBest, convergenceStale := newStale,
                                                  reason := newReason)
    {
      ok, newBest, newStale, newReason := true, convergenceBest, convergenceStale, reason;
      if newBest.None? || newBest.value - metric > o.noImprovementMinDelta {
        newBest, newStale := Some(metric), 0;
      } else if o.noImprovementEpochs != 0 {
        if newStale == SIZE_MAX {
          ok := false;
          return;
        }
        newStale := newStale + 1;
      }
      if o.targetLoss >= 0.0 && metric <= o.targetLoss {
        newReason := LossTarget;
      } else if o.noImprovementEpochs != 0 && newStale >= o.noImprovementEpochs {
        newReason := NoImprovement;
      }
    }

    /** All candidate values first, then one commit: a refused observation
        changes nothing. */
    method ObserveEpoch(metric: real) returns (ok: bool)
      modifies this
      ensures match Observe(o, old(Value()), metric)
              case Some(c) => ok && Value() == c
              case None => !ok && Value() == old(Value())
    {
      if completed == SIZE_MAX {
        return false;
      }
      if o.divergenceThreshold > 0.0 && metric > o.divergenceThreshold {
        return false;
      }
      var newRate, newNext, newStale, newBest;
      ok, newRate, newNext, newStale, newBest := ScheduleCandidate(metric);
      if !ok || newRate <= 0.0 {
        return false;
      }
      var newConvergenceBest, newConvergenceStale, newReason;
      ok, newConvergenceBest, newConvergenceStale, newReason := ConvergenceCandidate(metric);
      ConvergenceIgnoresSchedule(o, Value(), metric, newRate, completed + 1, newNext, newStale, newBest);
      if !ok {
        return false;
      }
      completed, nextTransition, stale, best, rate := completed + 1, newNext, newStale, newBest, newRate;
      convergenceBest, convergenceStale, reason := newConvergenceBest, newConvergenceStale, newReason;
    }
  }

  /** The convergence part reads no schedule field. */
  lemma ConvergenceIgnoresSchedule(o: Settings, c: Control, metric: real,
                                   rate: real, completed: Word, next: Word, stale: Word, best: Option<real>)
    ensures var d := c.(rate := rate, completed := completed, nextTransition := next, stale := stale, best := best);
            match ObserveConvergence(o, c, metric)
            case None => ObserveConvergence(o, d, metric).None?
            case Some(r) =>
              var same := r.(rate := rate, completed := completed, nextTransition := next, stale := stale,
                             best := best);
              ObserveConvergence(o, d, metric) == Some(same)
  {
  }

  // ---------- the schedules as functions of the history ----------

  ghost function RPow(x: real, n: nat): real {
    if n == 0 then 1.0 else x * RPow(x, n - 1)
  }

  /** The initial rate after n decays. */
  ghost function DecayedTimes(rate: real, decay: real, n: nat): real {
    rate * RPow(decay, n)
  }

  lemma RPowStep(x: real, n: nat)
    ensures RPow(x, n + 1) == RPow(x, n) * x
  {
  }

  lemma {:induction false} RPowPositive(x: real, n: nat)
    requires x > 0.0
    ensures RPow(x, n) > 0.0
  {
    if n > 0 {
      RPowPositive(x, n - 1);
    }
  }

  lemma Decays(lr: real, decay: real, n: nat)
    ensures Decayed(DecayedTimes(lr, decay, n), decay) == DecayedTimes(lr, decay, n + 1)
    ensures DecayedTimes(lr, decay, 0) == lr
  {
    RPowStep(decay, n);
  }

  lemma {:induction false} CompletedCounts(o: Settings, metrics: seq<real>)
    requires ObserveAll(o, metrics).Some?
    ensures ObserveAll(o, metrics).value.completed == |metrics| <= SIZE_MAX
  {
    if metrics != [] {
      CompletedCounts(o, metrics[..|metrics| - 1]);
    }
  }

  /** Constant rate, and nothing else moves in the schedule. */
  lemma {:induction false} ConstantRate(o: Settings, metrics: seq<real>)
    requires o.Valid() && o.schedule == Constant && ObserveAll(o, metrics).Some?
    ensures var c := ObserveAll(o, metrics).value;
            c.rate == o.learningRate && c.nextTransition == 1 && c.stale == 0 && c.best == None
  {
    if metrics != [] {
      ConstantRate(o, metrics[..|metrics| - 1]);
    }
  }

  /** Exponential decay: one factor per epoch. */
  lemma {:induction false} ExponentialRate(o: Settings, metrics: seq<real>)
    requires o.Valid() && o.schedule == Exponential && ObserveAll(o, metrics).Some?
    ensures var c := ObserveAll(o, metrics).value;
            && c.rate == DecayedTimes(o.learningRate, o.decay, |metrics|)
            && (|metrics| < SIZE_MAX ==> c.nextTransition == |metrics| + 1)
  {
    if metrics != [] {
      var n := |metrics| - 1;
      ExponentialRate(o, metrics[..n]);
      CompletedCounts(o, metrics[..n]);
      Decays(o.learningRate, o.decay, n);
    }
  }

  /** Step decay: one factor per full step, and the next transition at the next
      multiple of the step, capped at the largest counter. The cap is a transition
      like any other: the very last epoch decays once too often unless the step
      divides it. */
  lemma StepRate(o: Settings, metrics: seq<real>)
    requires o.Valid() && o.schedule == Step && ObserveAll(o, metrics).Some?
    ensures var c, full := ObserveAll(o, metrics).value, FullSteps(o.stepEpochs, |metrics|);
            && c.rate == DecayedTimes(o.learningRate, o.decay,
                           if |metrics| == SIZE_MAX && SIZE_MAX % o.stepEpochs != 0 then full + 1 else full)
            && c.nextTransition == CappedMultiple(o.stepEpochs, full + 1)
  {
    CompletedCounts(o, metrics);
    if |metrics| < SIZE_MAX {
      StepRateBelow(o, metrics);
    } else {
      var n := |metrics| - 1;
      StepRateBelow(o, metrics[..n]);
      CompletedCounts(o, metrics[..n]);
      LastMultiple(o.stepEpochs);
      hide FullSteps, CappedMultiple;
      StepTransition(o, FullSteps(o.stepEpochs, n), ObserveAll(o, metrics[..n]).value, metrics[n]);
    }
  }

  /** The rate is initial * decay^(n / step) exactly if the counter has not reached
      its end or the step divides that end. */
  lemma StepRateIsExactIff(o: Settings, metrics: seq<real>)
    requires o.Valid() && o.schedule == Step && ObserveAll(o, metrics).Some?
    ensures var full := FullSteps(o.stepEpochs, |metrics|);
            ObserveAll(o, metrics).value.rate == DecayedTimes(o.learningRate, o.decay, full)
            <==> |metrics| < SIZE_MAX || SIZE_MAX % o.stepEpochs == 0
  {
    StepRate(o, metrics);
    CompletedCounts(o, metrics);
    DecayFalls(o.learningRate, o.decay, FullSteps(o.stepEpochs, |metrics|));
    hide FullSteps, ObserveAll, DecayedTimes;
  }

  lemma DecayFalls(lr: real, decay: real, n: nat)
    requires lr > 0.0 && 0.0 < decay < 1.0
    ensures DecayedTimes(lr, decay, n + 1) < DecayedTimes(lr, decay, n)
  {
    RPowPositive(decay, n);
    RPowStep(decay, n);
    Shrinks(RPow(decay, n), decay);
    Scales(lr, RPow(decay, n) * decay, RPow(decay, n));
    hide RPow;
  }

  lemma Shrinks(p: real, decay: real)
    requires p > 0.0 && decay < 1.0
    ensures p * decay < p
  {
    assert p * (1.0 - decay) > 0.0;
  }

  lemma Scales(lr: real, a: real, b: real)
    requires lr > 0.0 && a < b
    ensures lr * a < lr * b
  {
    assert lr * (b - a) > 0.0;
  }

  lemma LastMultiple(step: Word)
    requires step > 0
    ensures CappedMultiple(step, FullSteps(step, SIZE_MAX - 1) + 1) == SIZE_MAX
    ensures CappedMultiple(step, FullSteps(step, SIZE_MAX - 1) + 2) == SIZE_MAX
    ensures CappedMultiple(step, FullSteps(step, SIZE_MAX) + 1) == SIZE_MAX
    ensures FullSteps(step, SIZE_MAX)
         == FullSteps(step, SIZE_MAX - 1) + if SIZE_MAX % step == 0 then 1 else 0
  {
    var k, r := (SIZE_MAX - 1) / step, (SIZE_MAX - 1) % step;
    assert step * (k + 1) == step * k + step && step * (k + 2) == step * k + 2 * step;
    if r + 1 == step {
      QuotientIs(SIZE_MAX, step, k + 1, 0);
    } else {
      QuotientIs(SIZE_MAX, step, k, r + 1);
    }
  }

  lemma {:induction false} StepRateBelow(o: Settings, metrics: seq<real>)
    requires o.Valid() && o.schedule == Step && ObserveAll(o, metrics).Some?
    requires |metrics| < SIZE_MAX
    ensures StepControl(o, |metrics|, ObserveAll(o, metrics).value)
  {
    if metrics == [] {
      assert FullSteps(o.stepEpochs, 0) == 0;
      assert CappedMultiple(o.stepEpochs, 1) == o.stepEpochs;
    } else {
      hide FullSteps, CappedMultiple, StepAt;
      var n := |metrics| - 1;
      StepRateBelow(o, metrics[..n]);
      CompletedCounts(o, metrics[..n]);
      NextMultiple(o.stepEpochs, n);
      StepRateGrows(o, FullSteps(o.stepEpochs, n), FullSteps(o.stepEpochs, n + 1),
                    ObserveAll(o, metrics[..n]).value, metrics[n]);
    }
  }

  /** How many whole steps fit into n epochs. */
  ghost function FullSteps(step: Word, n: nat): nat
    requires step > 0
  {
    n / step
  }

  ghost predicate StepControl(o: Settings, n: nat, c: Control)
    requires o.stepEpochs > 0
  {
    StepAt(o, FullSteps(o.stepEpochs, n), c)
  }

  ghost predicate StepAt(o: Settings, k: nat, c: Control) {
    && c.rate == DecayedTimes(o.learningRate, o.decay, k)
    && c.nextTransition == CappedMultiple(o.stepEpochs, k + 1)
  }

  lemma StepRateGrows(o: Settings, k: nat, after: nat, c: Control, metric: real)
    requires o.schedule == Step && StepAt(o, k, c) && Observe(o, c, metric).Some?
    requires c.completed + 1 == c.nextTransition <==> after == k + 1
    requires c.completed + 1 != c.nextTransition ==> after == k
    requires c.completed + 1 == c.nextTransition ==>
               CappedMultiple(o.stepEpochs, k + 2) ==
               (if c.nextTransition > SIZE_MAX - o.stepEpochs then SIZE_MAX else c.nextTransition + o.stepEpochs)
    ensures StepAt(o, after, Observe(o, c, metric).value)
  {
    if c.completed + 1 == c.nextTransition {
      StepTransition(o, k, c, metric);
    } else {
      StepStays(o, k, c, metric);
    }
  }

  lemma StepTransition(o: Settings, k: nat, c: Control, metric: real)
    requires o.schedule == Step && StepAt(o, k, c) && Observe(o, c, metric).Some?
    requires c.completed + 1 == c.nextTransition
    requires CappedMultiple(o.stepEpochs, k + 2)
          == if c.nextTransition > SIZE_MAX - o.stepEpochs then SIZE_MAX else c.nextTransition + o.stepEpochs
    ensures StepAt(o, k + 1, Observe(o, c, metric).value)
  {
    hide CappedMultiple, Decayed, DecayedTimes, ObserveConvergence;
    Decays(o.learningRate, o.decay, k);
  }

  lemma StepStays(o: Settings, k: nat, c: Control, metric: real)
    requires o.schedule == Step && StepAt(o, k, c) && Observe(o, c, metric).Some?
    requires c.completed + 1 != c.nextTransition
    ensures StepAt(o, k, Observe(o, c, metric).value)
  {
    hide CappedMultiple, Decayed, DecayedTimes, ObserveConvergence;
  }

  ghost function CappedMultiple(step: nat, k: nat): nat {
    if step * k > SIZE_MAX then SIZE_MAX else step * k
  }

  lemma NextMultiple(step: Word, n: nat)
    requires step > 0 && n + 1 < SIZE_MAX
    ensures var k := FullSteps(step, n);
            && (n + 1 == CappedMultiple(step, k + 1) <==> FullSteps(step, n + 1) == k + 1)
            && (n + 1 != CappedMultiple(step, k + 1) ==> FullSteps(step, n + 1) == k)
            && (n + 1 == CappedMultiple(step, k + 1) ==>
                  CappedMultiple(step, k + 2) == (if n + 1 > SIZE_MAX - step then SIZE_MAX else n + 1 + step))
  {
    var k, r := n / step, n % step;
    assert n == step * k + r;
    assert step * (k + 1) == step * k + step && step * (k + 2) == step * k + 2 * step;
    if r + 1 == step {
      QuotientIs(n + 1, step, k + 1, 0);
    } else {
      QuotientIs(n + 1, step, k, r + 1);
    }
  }

  lemma QuotientIs(x: nat, d: nat, q: nat, r: nat)
    requires d > 0 && r < d && x == d * q + r
    ensures x / d == q
  {
    var p, m := x / d, x % d;
    assert d * (p - q) == r - m;
    if p != q {
      Multiple(d, p - q);
    }
  }

  lemma Multiple(d: int, k: int)
    requires d > 0 && k != 0
    ensures d * k >= d || d * k <= -d
  {
  }

  /** No value of the whole history beats the recorded best by more than the margin. */
  ghost predicate Unbeaten(metrics: seq<real>, margin: real, best: real) {
    forall j :: 0 <= j < |metrics| ==> best - metrics[j] <= margin
  }

  /** How often the plateau policy has lowered the rate: once for every full
      patience within each stretch that an improvement ended or the history ends. */
  ghost function Drops(metrics: seq<real>, margin: real, patience: nat): nat
    requires patience > 0
  {
    if metrics == [] then
      0
    else
      var at := LastImprovement(metrics, margin);
      Drops(metrics[..at], margin, patience) + FullPatiences(|metrics| - 1 - at, patience)
  }

  ghost function FullPatiences(idle: nat, patience: nat): nat
    requires patience > 0
  {
    idle / patience
  }

  /** The completed epochs at the last of these drops; zero before the first. */
  ghost function LastDrop(metrics: seq<real>, margin: real, patience: nat): nat
    requires patience > 0
  {
    if metrics == [] then
      0
    else
      var at := LastImprovement(metrics, margin);
      var full := FullPatiences(|metrics| - 1 - at, patience);
      if full > 0 then at + 1 + patience * full else LastDrop(metrics[..at], margin, patience)
  }

  /** Plateau, as functions of the history alone: the best is the last improvement,
      the stale count what exceeds the full patiences since, the rate has lost one
      factor per drop, and the next transition follows the last drop. */
  lemma {:induction false} PlateauState(o: Settings, metrics: seq<real>)
    requires o.Valid() && o.schedule == Plateau && metrics != [] && ObserveAll(o, metrics).Some?
    ensures PlateauAt(o, metrics, ObserveAll(o, metrics).value)
  {
    var n := |metrics| - 1;
    if n > 0 {
      PlateauState(o, metrics[..n]);
      CompletedCounts(o, metrics[..n]);
      PlateauStateGrows(o, metrics, ObserveAll(o, metrics[..n]).value);
      hide PlateauAt, Observe;
    } else {
      Decays(o.learningRate, o.decay, 0);
      assert metrics == [metrics[0]] && metrics[..0] == [];
      assert Drops(metrics, o.plateauMinDelta, o.plateauPatience) == 0;
      assert LastDrop(metrics, o.plateauMinDelta, o.plateauPatience) == 0;
    }
  }

  ghost predicate PlateauAt(o: Settings, metrics: seq<real>, c: Control)
    requires metrics != [] && o.plateauPatience > 0
  {
    var at := LastImprovement(metrics, o.plateauMinDelta);
    && c.best == Some(metrics[at])
    && Unbeaten(metrics, o.plateauMinDelta, metrics[at])
    && c.stale == (|metrics| - 1 - at) % o.plateauPatience
    && c.rate == DecayedTimes(o.learningRate, o.decay, Drops(metrics, o.plateauMinDelta, o.plateauPatience))
    && c.nextTransition == OneAfter(LastDrop(metrics, o.plateauMinDelta, o.plateauPatience))
  }

  lemma PlateauStateGrows(o: Settings, metrics: seq<real>, c: Control)
    requires o.Valid() && o.schedule == Plateau && |metrics| > 1
    requires PlateauAt(o, metrics[..|metrics| - 1], c) && c.completed == |metrics| - 1
    requires Observe(o, c, metrics[|metrics| - 1]).Some?
    ensures PlateauAt(o, metrics, Observe(o, c, metrics[|metrics| - 1]).value)
  {
    hide Observe, Unbeaten, Drops, LastDrop, DecayedTimes, Decayed, RPow, LastImprovement;
    var n, margin, patience := |metrics| - 1, o.plateauMinDelta, o.plateauPatience;
    assert metrics == metrics[..n] + [metrics[n]];
    ImprovementGrows(metrics, margin);
    PlateauStep(o, c, metrics[n]);
    if c.best.value - metrics[n] > margin {
      PlateauImproves(metrics, margin, patience);
    } else {
      PlateauIdles(metrics, margin, patience);
      Decays(o.learningRate, o.decay, Drops(metrics[..n], margin, patience));
    }
  }

  /** One observation under the plateau policy. */
  lemma PlateauStep(o: Settings, c: Control, metric: real)
    requires o.Valid() && o.schedule == Plateau && c.best.Some? && c.stale < o.plateauPatience
    requires Observe(o, c, metric).Some?
    ensures var d := Observe(o, c, metric).value;
            if c.best.value - metric > o.plateauMinDelta then
              d.best == Some(metric) && d.stale == 0 && d.rate == c.rate && d.nextTransition == c.nextTransition
            else if c.stale + 1 == o.plateauPatience then
              && d.best == c.best && d.stale == 0 && d.rate == Decayed(c.rate, o.decay)
              && d.nextTransition == OneAfter(c.completed + 1)
            else
              && d.best == c.best && d.stale == c.stale + 1 && d.rate == c.rate
              && d.nextTransition == c.nextTransition
  {
    hide ObserveConvergence, Decayed;
  }

  ghost function OneAfter(epoch: nat): nat {
    if epoch >= SIZE_MAX then SIZE_MAX else epoch + 1
  }

  /** One more observation, seen from the history: an improvement. */
  lemma PlateauImproves(metrics: seq<real>, margin: real, patience: nat)
    requires |metrics| > 1 && patience > 0
    requires LastImprovement(metrics, margin) == |metrics| - 1
    ensures var n := |metrics| - 1;
            && Drops(metrics, margin, patience) == Drops(metrics[..n], margin, patience)
            && LastDrop(metrics, margin, patience) == LastDrop(metrics[..n], margin, patience)
  {
    hide LastImprovement;
  }

  /** And none. */
  lemma PlateauIdles(metrics: seq<real>, margin: real, patience: nat)
    requires |metrics| > 1 && patience > 0
    requires LastImprovement(metrics, margin) == LastImprovement(metrics[..|metrics| - 1], margin)
    ensures var n, at := |metrics| - 1, LastImprovement(metrics, margin);
            var stale := (n - 1 - at) % patience;
            && (n - at) % patience == (if stale + 1 == patience then 0 else stale + 1)
            && Drops(metrics, margin, patience)
               == Drops(metrics[..n], margin, patience) + (if stale + 1 == patience then 1 else 0)
            && LastDrop(metrics, margin, patience)
               == if stale + 1 == patience then n + 1 else LastDrop(metrics[..n], margin, patience)
  {
    hide LastImprovement;
    var n, at := |metrics| - 1, LastImprovement(metrics, margin);
    assert metrics[..n][..at] == metrics[..at];
    NextQuotient(n - 1 - at, patience);
  }

  lemma NextQuotient(idle: nat, patience: nat)
    requires patience > 0
    ensures if idle % patience + 1 == patience
            then (idle + 1) / patience == idle / patience + 1 && (idle + 1) % patience == 0
                 && patience * ((idle + 1) / patience) == idle + 1
            else (idle + 1) / patience == idle / patience && (idle + 1) % patience == idle % patience + 1
  {
    var q, r := idle / patience, idle % patience;
    assert idle == patience * q + r;
    if r + 1 == patience {
      assert patience * (q + 1) == patience * q + patience;
      QuotientIs(idle + 1, patience, q + 1, 0);
    } else {
      QuotientIs(idle + 1, patience, q, r + 1);
    }
  }

  /** A plateau best never rises. */
  lemma PlateauBestFalls(o: Settings, c: Control, metric: real)
    requires o.Valid() && o.schedule == Plateau && c.best.Some? && Observe(o, c, metric).Some?
    ensures Observe(o, c, metric).value.best.Some?
    ensures Observe(o, c, metric).value.best.value <= c.best.value
  {
  }

  // ---------- convergence as a function of the history ----------

  /** The last epoch that improved on the previous improvement by more than the
      margin; the first epoch counts as one. */
  ghost function LastImprovement(metrics: seq<real>, margin: real): (at: nat)
    requires metrics != []
    ensures at < |metrics|
  {
    var n := |metrics| - 1;
    if n == 0 then
      0
    else
      var at := LastImprovement(metrics[..n], margin);
      if metrics[at] - metrics[n] > margin then n else at
  }

  /** What the last improvement is: smaller than everything before it, and nothing
      after it is smaller by more than the margin. */
  lemma {:induction false} LastImprovementIs(metrics: seq<real>, margin: real)
    requires metrics != [] && margin >= 0.0
    ensures var at := LastImprovement(metrics, margin);
            && (forall j :: 0 <= j < at ==> metrics[at] < metrics[j])
            && (forall j :: at < j < |metrics| ==> metrics[at] - metrics[j] <= margin)
  {
    var n := |metrics| - 1;
    if n > 0 {
      LastImprovementIs(metrics[..n], margin);
      assert metrics == metrics[..n] + [metrics[n]];
    }
  }

  /** The recorded best is the loss of the last improvement, nothing observed
      beats it by more than the margin, and the stale count is the number of
      epochs since. */
  lemma {:induction false} ConvergenceState(o: Settings, metrics: seq<real>)
    requires o.Valid() && o.noImprovementEpochs != 0 && metrics != [] && ObserveAll(o, metrics).Some?
    ensures var c, at := ObserveAll(o, metrics).value, LastImprovement(metrics, o.noImprovementMinDelta);
            && c.convergenceBest == Some(metrics[at])
            && Unbeaten(metrics, o.noImprovementMinDelta, metrics[at])
            && c.convergenceStale == |metrics| - 1 - at
  {
    var n := |metrics| - 1;
    if n > 0 {
      ConvergenceState(o, metrics[..n]);
      ImprovementGrows(metrics, o.noImprovementMinDelta);
      hide LastImprovement, Unbeaten;
      hide ObserveSchedule;
    }
  }

  lemma ImprovementGrows(metrics: seq<real>, margin: real)
    requires |metrics| > 1 && margin >= 0.0
    requires Unbeaten(metrics[..|metrics| - 1], margin, metrics[LastImprovement(metrics[..|metrics| - 1], margin)])
    ensures Unbeaten(metrics, margin, metrics[LastImprovement(metrics, margin)])
    ensures var n := |metrics| - 1;
            var at := LastImprovement(metrics[..n], margin);
            LastImprovement(metrics, margin) == if metrics[at] - metrics[n] > margin then n else at
  {
    assert metrics == metrics[..|metrics| - 1] + [metrics[|metrics| - 1]];
  }

  /** The stop rule read off the history alone: the target loss first, then too
      many epochs since the last improvement. */
  ghost function StopReason(o: Settings, metrics: seq<real>): Reason
    requires metrics != []
  {
    if o.targetLoss >= 0.0 && metrics[|metrics| - 1] <= o.targetLoss then
      LossTarget
    else if o.noImprovementEpochs != 0
            && |metrics| - 1 - LastImprovement(metrics, o.noImprovementMinDelta) >= o.noImprovementEpochs then
      NoImprovement
    else
      NoReason
  }

  /** Training that has not stopped yet stops now exactly when, and for the
      reason, the history says. */
  lemma ReasonFollowsHistory(o: Settings, metrics: seq<real>)
    requires o.Valid() && metrics != [] && ObserveAll(o, metrics).Some?
    requires ObserveAll(o, metrics[..|metrics| - 1]).value.reason == NoReason
    ensures ObserveAll(o, metrics).value.reason == StopReason(o, metrics)
  {
    if o.noImprovementEpochs != 0 {
      ConvergenceState(o, metrics);
    }
  }

  // ---------- what is refused ----------

  lemma {:induction false} RateIsPositive(o: Settings, metrics: seq<real>)
    requires o.Valid() && ObserveAll(o, metrics).Some?
    ensures ObserveAll(o, metrics).value.rate > 0.0
  {
    if metrics != [] {
      RateIsPositive(o, metrics[..|metrics| - 1]);
      RateStaysPositive(o, ObserveAll(o, metrics[..|metrics| - 1]).value, metrics[|metrics| - 1]);
      hide Observe;
    }
  }

  lemma RateStaysPositive(o: Settings, c: Control, metric: real)
    requires o.Valid() && c.rate > 0.0
    ensures c.completed < SIZE_MAX && ObserveSchedule(o, c, metric).Some? ==>
              ObserveSchedule(o, c, metric).value.rate > 0.0
    ensures Observe(o, c, metric).Some? ==> Observe(o, c, metric).value.rate > 0.0
  {
    assert o.schedule != Constant ==> c.rate * o.decay > 0.0;
  }

  /** The next epoch of an accepted history is refused exactly if the counter is at
      its end or the objective exceeds a divergence threshold that is set. */
  lemma NextIsRefusedIff(o: Settings, metrics: seq<real>, metric: real)
    requires o.Valid() && ObserveAll(o, metrics).Some?
    ensures Observe(o, ObserveAll(o, metrics).value, metric).None?
        <==> |metrics| == SIZE_MAX || (o.divergenceThreshold > 0.0 && metric > o.divergenceThreshold)
  {
    var c := ObserveAll(o, metrics).value;
    CompletedCounts(o, metrics);
    RateIsPositive(o, metrics);
    RateStaysPositive(o, c, metric);
    if metrics != [] && o.schedule == Plateau {
      PlateauState(o, metrics);
    }
    if metrics != [] && o.noImprovementEpochs != 0 {
      ConvergenceState(o, metrics);
    }
    hide ObserveAll, Drops, LastDrop, LastImprovement, Unbeaten, Decayed, DecayedTimes;
  }

  /** A whole history is accepted exactly if the counter can hold it and no
      objective exceeds the threshold. */
  lemma {:induction false} HistoryIsAcceptedIff(o: Settings, metrics: seq<real>)
    requires o.Valid()
    ensures ObserveAll(o, metrics).Some?
        <==> |metrics| <= SIZE_MAX
             && (o.divergenceThreshold > 0.0 ==>
                   forall i :: 0 <= i < |metrics| ==> metrics[i] <= o.divergenceThreshold)
  {
    if metrics != [] {
      var n := |metrics| - 1;
      HistoryIsAcceptedIff(o, metrics[..n]);
      if ObserveAll(o, metrics[..n]).Some? {
        NextIsRefusedIff(o, metrics[..n], metrics[n]);
      }
      assert metrics == metrics[..n] + [metrics[n]];
      hide Observe;
    }
  }

  /** A checkpoint without optimizer state may be written exactly when the
      control state cannot influence the run: the rate never moves and no reason
      to stop can arise. */
  lemma StatelessControl(o: Settings, c: Control, metric: real)
    requires o.Valid() && !o.RequiresState() && c.rate == o.learningRate && c.reason == NoReason
    ensures Observe(o, c, metric).None? <==> c.completed == SIZE_MAX
    ensures Observe(o, c, metric).Some? ==>
              Observe(o, c, metric).value.rate == o.learningRate
              && Observe(o, c, metric).value.reason == NoReason
              && Observe(o, c, metric).value.completed == c.completed + 1
  {
  }
}
