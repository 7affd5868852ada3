/** The canonical streams behind the model, dataset and training digests. Real
    numbers appear as their 64-bit patterns. */
module Digest {
  import opened Options
  import opened Words
  import opened Sha256
  import opened Encoding
  import opened Grids
  import opened Schedule

  type Bits = Word

  /** x > 0.0 and x >= 0.0 for finite patterns; negative zero is not negative. */
  predicate Positive(x: Bits) {
    0 < x < 0x8000_0000_0000_0000
  }

  predicate NonNegative(x: Bits) {
    x <= 0x8000_0000_0000_0000
  }

  datatype Loss = Mse | BinaryCrossEntropy | CategoricalCrossEntropy

  function LossName(loss: Loss): Text {
    Ascii(match loss
          case Mse => "mse"
          case BinaryCrossEntropy => "binary_cross_entropy"
          case CategoricalCrossEntropy => "categorical_cross_entropy")
  }

  function ScheduleName(kind: ScheduleKind): Text {
    Ascii(match kind
          case Constant => "constant"
          case Step => "step"
          case Exponential => "exponential"
          case Plateau => "plateau")
  }

  datatype TrainingConfig = TrainingConfig(
    epochs: Word, learningRate: Bits, seed: Word, loss: Loss, checkpointInterval: Word,
    earlyStoppingPatience: Word, earlyStoppingMinDelta: Bits, batchSize: Word, shuffle: bool,
    gradientClipNorm: Bits, l1: Bits, l2: Bits, regularizeBiases: bool,
    optimizer: Kind, momentum: Bits, beta1: Bits, beta2: Bits, epsilon: Bits,
    schedule: ScheduleKind, decay: Bits, stepEpochs: Word, plateauPatience: Word, plateauMinDelta: Bits,
    divergenceThreshold: Bits, targetLoss: Bits, maxNoImprovementEpochs: Word, noImprovementMinDelta: Bits)

  /** The hexadecimal digest of the validation data. */
  type HexText = s: seq<Byte> | |s| == 64 witness seq(64, i => 0)

  // ---------- what training can act on ----------

  datatype OptimizerChoice = PlainDescent | WithMomentum(momentum: Bits) | WithAdam(beta1: Bits, beta2: Bits,
      epsilon: Bits)
  datatype ScheduleChoice =
    | ConstantRate
    | StepRate(decay: Bits, epochs: Word)
    | ExponentialRate(decay: Bits)
    | PlateauRate(decay: Bits, patience: Word, minDelta: Bits)
  datatype Penalty = Penalty(l1: Bits, l2: Bits, biases: bool)
  datatype Convergence = Convergence(divergence: Bits, targetLoss: Bits, noImprovement: Word, minDelta: Bits)
  datatype EarlyStop = EarlyStop(patience: Word, minDelta: Bits, validation: HexText)

  /** A configuration without the fields that are switched off. */
  datatype Effective = Effective(
    epochs: Word, learningRate: Bits, seed: Word, loss: Loss, checkpointInterval: Word,
    batch: Option<Word>, shuffle: bool, clip: Option<Bits>, penalty: Option<Penalty>,
    optimizer: OptimizerChoice, schedule: ScheduleChoice, convergence: Option<Convergence>, early: Option<EarlyStop>)

  function EffectiveOptimizer(c: TrainingConfig): OptimizerChoice {
    match c.optimizer
    case GradientDescent => PlainDescent
    case Momentum => WithMomentum(c.momentum)
    case Adam => WithAdam(c.beta1, c.beta2, c.epsilon)
  }

  function EffectiveSchedule(c: TrainingConfig): ScheduleChoice {
    match c.schedule
    case Constant => ConstantRate
    case Step => StepRate(c.decay, c.stepEpochs)
    case Exponential => ExponentialRate(c.decay)
    case Plateau => PlateauRate(c.decay, c.plateauPatience, c.plateauMinDelta)
  }

  predicate Regularized(c: TrainingConfig) {
    Positive(c.l1) || Positive(c.l2)
  }

  predicate Controlled(c: TrainingConfig) {
    Positive(c.divergenceThreshold) || NonNegative(c.targetLoss) || c.maxNoImprovementEpochs != 0
  }

  function EffectivePenalty(c: TrainingConfig): Option<Penalty> {
    if Regularized(c) then Some(Penalty(c.l1, c.l2, c.regularizeBiases)) else None
  }

  function EffectiveControl(c: TrainingConfig): Option<Convergence> {
    if Controlled(c)
    then Some(Convergence(c.divergenceThreshold, c.targetLoss, c.maxNoImprovementEpochs, c.noImprovementMinDelta))
    else None
  }

  function EffectiveEarly(c: TrainingConfig, validation: HexText): Option<EarlyStop> {
    if c.earlyStoppingPatience != 0
    then Some(EarlyStop(c.earlyStoppingPatience, c.earlyStoppingMinDelta, validation)) else None
  }

  function EffectiveConfig(c: TrainingConfig, validation: HexText): Effective {
    Effective(
      c.epochs, c.learningRate, c.seed, c.loss, c.checkpointInterval,
      if c.batchSize != 0 then Some(c.batchSize) else None,
      c.shuffle,
      if Positive(c.gradientClipNorm) then Some(c.gradientClipNorm) else None,
      EffectivePenalty(c), EffectiveOptimizer(c), EffectiveSchedule(c), EffectiveControl(c),
      EffectiveEarly(c, validation))
  }

  // ---------- the training stream ----------

  function Flag(b: bool): Word {
    if b then 1 else 0
  }

  function TrainingHead(c: TrainingConfig): seq<Byte> {
    Counted(Ascii("neural-c:canonical:training")) + Numbers([1, c.epochs, c.learningRate, c.seed])
    + Counted(LossName(c.loss)) + Number(c.checkpointInterval)
  }

  function OptimizerPayload(c: TrainingConfig): Option<seq<Byte>> {
    match c.optimizer
    case GradientDescent => None
    case Momentum => Some(Counted(Ascii("momentum_v1")) + Numbers([c.momentum]))
    case Adam => Some(Counted(Ascii("adam_v1")) + Numbers([c.beta1, c.beta2, c.epsilon]))
  }

  function SchedulePayload(c: TrainingConfig): Option<seq<Byte>> {
    match c.schedule
    case Constant => None
    case Step => Some(Counted(ScheduleName(Step)) + Numbers([c.decay, c.stepEpochs]))
    case Exponential => Some(Counted(ScheduleName(Exponential)) + Numbers([c.decay]))
    case Plateau => Some(Counted(ScheduleName(Plateau)) + Numbers([c.decay, c.plateauPatience, c.plateauMinDelta]))
  }

  function PenaltyPayload(c: TrainingConfig): Option<seq<Byte>> {
    if Regularized(c) then Some(Counted(Ascii("l1_l2_v1")) + Numbers([c.l1, c.l2, Flag(c.regularizeBiases)])) else None
  }

  function ControlPayload(c: TrainingConfig): Option<seq<Byte>> {
    if Controlled(c) then
      Some(Counted(Ascii("loss_v1"))
           + Numbers([c.divergenceThreshold, c.targetLoss, c.maxNoImprovementEpochs, c.noImprovementMinDelta]))
    else
      None
  }

  function EarlyPayload(c: TrainingConfig, validation: HexText): Option<seq<Byte>> {
    if c.earlyStoppingPatience != 0
    then Some(Numbers([c.earlyStoppingPatience, c.earlyStoppingMinDelta]) + Counted(validation)) else None
  }

  function TrainingSections(c: TrainingConfig, validation: HexText): (sections: seq<Section>)
    ensures |sections| == 8
  {
    [Section(Ascii("mini_batch"), if c.batchSize != 0 then Some(Number(c.batchSize)) else None),
     Section(Ascii("epoch_shuffle"), if c.shuffle then Some(Counted(Ascii("splitmix64_fisher_yates_v1"))) else None),
     Section(Ascii("gradient_clip_norm"),
             if Positive(c.gradientClipNorm) then Some(Number(c.gradientClipNorm)) else None),
     Section(Ascii("regularization"), PenaltyPayload(c)),
     Section(Ascii("optimizer"), OptimizerPayload(c)),
     Section(Ascii("learning_rate_schedule"), SchedulePayload(c)),
     Section(Ascii("convergence_control"), ControlPayload(c)),
     Section(Ascii("early_stopping"), EarlyPayload(c, validation))]
  }

  function TrainingStream(c: TrainingConfig, validation: HexText): seq<Byte> {
    TrainingHead(c) + Sections(TrainingSections(c, validation))
  }

  // ---------- unique decodability of the training stream ----------

  lemma TagsAreDistinct(c: TrainingConfig, v: HexText)
    ensures var s := TrainingSections(c, v);
            forall i, j :: 0 <= i < j < |s| ==> s[i].tag != s[j].tag
  {
    var s := TrainingSections(c, v);
    assert |s[0].tag| == 10 && |s[1].tag| == 13 && |s[2].tag| == 18 && |s[3].tag| == 14;
    assert |s[4].tag| == 9 && |s[5].tag| == 22 && |s[6].tag| == 19 && |s[7].tag| == 14;
    assert s[3].tag[0] == 'r' as int && s[7].tag[0] == 'e' as int;
  }

  lemma LossNamesAreDistinct(a: Loss, b: Loss)
    requires LossName(a) == LossName(b)
    ensures a == b
  {
    assert |LossName(Mse)| == 3 && |LossName(BinaryCrossEntropy)| == 20 && |LossName(CategoricalCrossEntropy)| == 25;
  }

  lemma HeadsDetermine(c: TrainingConfig, d: TrainingConfig, x: seq<Byte>, y: seq<Byte>)
    requires TrainingHead(c) + x == TrainingHead(d) + y
    ensures c.epochs == d.epochs && c.learningRate == d.learningRate && c.seed == d.seed && c.loss == d.loss
    ensures c.checkpointInterval == d.checkpointInterval && x == y
  {
    hide Counted, Numbers, Number, LossName, Ascii;
    var magic := Counted(Ascii("neural-c:canonical:training"));
    var fixedC, fixedD := Numbers([1, c.epochs, c.learningRate, c.seed]),
        Numbers([1, d.epochs, d.learningRate, d.seed]);
    var tailC := Counted(LossName(c.loss)) + (Number(c.checkpointInterval) + x);
    var tailD := Counted(LossName(d.loss)) + (Number(d.checkpointInterval) + y);
    assert TrainingHead(c) + x == (magic + fixedC) + tailC;
    assert TrainingHead(d) + y == (magic + fixedD) + tailD;
    SplitEqual(magic + fixedC, magic + fixedD, tailC, tailD);
    SplitEqual(magic, magic, fixedC, fixedD);
    NumbersDetermine([1, c.epochs, c.learningRate, c.seed], [1, d.epochs, d.learningRate, d.seed]);
    assert [1, c.epochs, c.learningRate, c.seed][1..] == [1, d.epochs, d.learningRate, d.seed][1..];
    CountedIsDelimited(LossName(c.loss), LossName(d.loss), Number(c.checkpointInterval) + x,
                       Number(d.checkpointInterval) + y);
    LossNamesAreDistinct(c.loss, d.loss);
    NumberIsDelimited(c.checkpointInterval, d.checkpointInterval, x, y);
  }

  ghost predicate DelimitedIfPresent(p: Option<seq<Byte>>, q: Option<seq<Byte>>) {
    p.Some? && q.Some? ==> Delimited(p.value, q.value)
  }

  lemma PayloadsAreDelimited(c: TrainingConfig, d: TrainingConfig, v: HexText, w: HexText)
    ensures DelimitedIfPresent(PenaltyPayload(c), PenaltyPayload(d))
    ensures DelimitedIfPresent(OptimizerPayload(c), OptimizerPayload(d))
    ensures DelimitedIfPresent(SchedulePayload(c), SchedulePayload(d))
    ensures DelimitedIfPresent(ControlPayload(c), ControlPayload(d))
    ensures DelimitedIfPresent(EarlyPayload(c, v), EarlyPayload(d, w))
  {
    hide Delimited, Counted, Numbers;
    if PenaltyPayload(c).Some? && PenaltyPayload(d).Some? {
      SameSizeIsDelimited(PenaltyPayload(c).value, PenaltyPayload(d).value);
    }
    if ControlPayload(c).Some? && ControlPayload(d).Some? {
      SameSizeIsDelimited(ControlPayload(c).value, ControlPayload(d).value);
    }
    if EarlyPayload(c, v).Some? && EarlyPayload(d, w).Some? {
      SameSizeIsDelimited(EarlyPayload(c, v).value, EarlyPayload(d, w).value);
    }
    OptimizerIsDelimited(c, d);
    ScheduleIsDelimited(c, d);
  }

  lemma NamesAreDistinct()
    ensures Ascii("momentum_v1") != Ascii("adam_v1")
    ensures ScheduleName(Step) != ScheduleName(Exponential) && ScheduleName(Step) != ScheduleName(Plateau)
    ensures ScheduleName(Exponential) != ScheduleName(Plateau)
  {
    assert |Ascii("momentum_v1")| == 11 && |Ascii("adam_v1")| == 7;
    assert |ScheduleName(Step)| == 4 && |ScheduleName(Exponential)| == 11 && |ScheduleName(Plateau)| == 7;
  }

  lemma OptimizerIsDelimited(c: TrainingConfig, d: TrainingConfig)
    ensures DelimitedIfPresent(OptimizerPayload(c), OptimizerPayload(d))
  {
    hide Delimited, Counted, Numbers, Ascii;
    if c.optimizer != GradientDescent && d.optimizer != GradientDescent {
      NamesAreDistinct();
      var a, b := OptimizerPieces(c), OptimizerPieces(d);
      NamedIsDelimited(a.0, b.0, Numbers(a.1), Numbers(b.1));
    }
  }

  function OptimizerPieces(c: TrainingConfig): (Text, seq<Word>)
    requires c.optimizer != GradientDescent
  {
    if c.optimizer == Momentum then (Ascii("momentum_v1"), [c.momentum])
    else (Ascii("adam_v1"), [c.beta1, c.beta2, c.epsilon])
  }

  function SchedulePieces(c: TrainingConfig): (Text, seq<Word>)
    requires c.schedule != Constant
  {
    match c.schedule
    case Step => (ScheduleName(Step), [c.decay, c.stepEpochs])
    case Exponential => (ScheduleName(Exponential), [c.decay])
    case Plateau => (ScheduleName(Plateau), [c.decay, c.plateauPatience, c.plateauMinDelta])
  }

  lemma ScheduleIsDelimited(c: TrainingConfig, d: TrainingConfig)
    ensures DelimitedIfPresent(SchedulePayload(c), SchedulePayload(d))
  {
    hide Delimited, Counted, Numbers, ScheduleName;
    if c.schedule != Constant && d.schedule != Constant {
      NamesAreDistinct();
      var a, b := SchedulePieces(c), SchedulePieces(d);
      NamedIsDelimited(a.0, b.0, Numbers(a.1), Numbers(b.1));
    }
  }

  /** A named list of numbers determines its name and its numbers. */
  lemma NamedNumbers(a: Text, b: Text, x: seq<Word>, y: seq<Word>)
    requires Counted(a) + Numbers(x) == Counted(b) + Numbers(y)
    ensures a == b && x == y
  {
    hide Counted, Numbers;
    CountedIsDelimited(a, b, Numbers(x), Numbers(y));
    NumbersDetermine(x, y);
  }

  lemma OptimizerDetermined(c: TrainingConfig, d: TrainingConfig)
    requires OptimizerPayload(c) == OptimizerPayload(d)
    ensures EffectiveOptimizer(c) == EffectiveOptimizer(d)
  {
    hide Counted, Numbers, Ascii;
    if c.optimizer != GradientDescent {
      NamesAreDistinct();
      var a, b := OptimizerPieces(c), OptimizerPieces(d);
      NamedNumbers(a.0, b.0, a.1, b.1);
      FirstOnes(a.1, b.1);
    }
  }

  lemma FirstOnes(a: seq<Word>, b: seq<Word>)
    requires a == b
    ensures forall i :: 0 <= i < |a| ==> a[i] == b[i]
  {
  }

  lemma ScheduleDetermined(c: TrainingConfig, d: TrainingConfig)
    requires SchedulePayload(c) == SchedulePayload(d)
    ensures EffectiveSchedule(c) == EffectiveSchedule(d)
  {
    hide Counted, Numbers, ScheduleName;
    if c.schedule != Constant {
      NamesAreDistinct();
      var a, b := SchedulePieces(c), SchedulePieces(d);
      NamedNumbers(a.0, b.0, a.1, b.1);
      FirstOnes(a.1, b.1);
    }
  }

  lemma PenaltyDetermined(c: TrainingConfig, d: TrainingConfig)
    requires PenaltyPayload(c) == PenaltyPayload(d)
    ensures EffectivePenalty(c) == EffectivePenalty(d)
  {
    hide Counted, Numbers, Ascii;
    if Regularized(c) {
      NamedNumbers(Ascii("l1_l2_v1"), Ascii("l1_l2_v1"),
                   [c.l1, c.l2, Flag(c.regularizeBiases)], [d.l1, d.l2, Flag(d.regularizeBiases)]);
      FirstOnes([c.l1, c.l2, Flag(c.regularizeBiases)], [d.l1, d.l2, Flag(d.regularizeBiases)]);
    }
  }

  lemma ControlDetermined(c: TrainingConfig, d: TrainingConfig)
    requires ControlPayload(c) == ControlPayload(d)
    ensures EffectiveControl(c) == EffectiveControl(d)
  {
    hide Counted, Numbers, Ascii;
    if Controlled(c) {
      var x := [c.divergenceThreshold, c.targetLoss, c.maxNoImprovementEpochs, c.noImprovementMinDelta];
      var y := [d.divergenceThreshold, d.targetLoss, d.maxNoImprovementEpochs, d.noImprovementMinDelta];
      NamedNumbers(Ascii("loss_v1"), Ascii("loss_v1"), x, y);
      FirstOnes(x, y);
    }
  }

  lemma EarlyDetermined(c: TrainingConfig, d: TrainingConfig, v: HexText, w: HexText)
    requires EarlyPayload(c, v) == EarlyPayload(d, w)
    ensures EffectiveEarly(c, v) == EffectiveEarly(d, w)
  {
    hide Counted, Numbers;
    if c.earlyStoppingPatience != 0 {
      var x := [c.earlyStoppingPatience, c.earlyStoppingMinDelta];
      var y := [d.earlyStoppingPatience, d.earlyStoppingMinDelta];
      SplitEqual(Numbers(x), Numbers(y), Counted(v), Counted(w));
      NumbersDetermine(x, y);
      FirstOnes(x, y);
      assert Counted(v) + [] == Counted(w) + [];
      CountedIsDelimited(v, w, [], []);
    }
  }

  lemma SingleNumber(a: Option<Word>, b: Option<Word>)
    requires (if a.Some? then Some(Number(a.value)) else None) == if b.Some? then Some(Number(b.value)) else None
    ensures a == b
  {
    if a.Some? {
      assert Number(a.value) + [] == Number(b.value) + [];
      NumberIsDelimited(a.value, b.value, [], []);
    }
  }

  /** Field by field: equal wherever training can see the difference. */
  ghost predicate TrainAlike(c: TrainingConfig, d: TrainingConfig, v: HexText, w: HexText) {
    && c.epochs == d.epochs && c.learningRate == d.learningRate && c.seed == d.seed && c.loss == d.loss
    && c.checkpointInterval == d.checkpointInterval && c.batchSize == d.batchSize && c.shuffle == d.shuffle
    && (Positive(c.gradientClipNorm) || Positive(d.gradientClipNorm) ==> c.gradientClipNorm == d.gradientClipNorm)
    && PenaltiesAlike(c, d)
    && c.optimizer == d.optimizer && (c.optimizer == Momentum ==> c.momentum == d.momentum)
    && (c.optimizer == Adam ==> c.beta1 == d.beta1 && c.beta2 == d.beta2 && c.epsilon == d.epsilon)
    && c.schedule == d.schedule && (c.schedule != Constant ==> c.decay == d.decay)
    && (c.schedule == Step ==> c.stepEpochs == d.stepEpochs)
    && (c.schedule == Plateau ==> c.plateauPatience == d.plateauPatience && c.plateauMinDelta == d.plateauMinDelta)
    && ConvergesAlike(c, d)
    && c.earlyStoppingPatience == d.earlyStoppingPatience
    && (c.earlyStoppingPatience != 0 ==> c.earlyStoppingMinDelta == d.earlyStoppingMinDelta && v == w)
  }

  ghost predicate PenaltiesAlike(c: TrainingConfig, d: TrainingConfig) {
    (Positive(c.l1) || Positive(c.l2) || Positive(d.l1) || Positive(d.l2)) ==>
      c.l1 == d.l1 && c.l2 == d.l2 && c.regularizeBiases == d.regularizeBiases
  }

  ghost predicate ConvergesAlike(c: TrainingConfig, d: TrainingConfig) {
    || (!Positive(c.divergenceThreshold) && !NonNegative(c.targetLoss) && c.maxNoImprovementEpochs == 0
        && !Positive(d.divergenceThreshold) && !NonNegative(d.targetLoss) && d.maxNoImprovementEpochs == 0)
    || (c.divergenceThreshold == d.divergenceThreshold && c.targetLoss == d.targetLoss
        && c.maxNoImprovementEpochs == d.maxNoImprovementEpochs && c.noImprovementMinDelta == d.noImprovementMinDelta)
  }

  /** Unique decodability: two configurations have the same canonical stream
      exactly when they agree on everything training can act on. */
  lemma TrainingStreamIsDecodable(c: TrainingConfig, d: TrainingConfig, v: HexText, w: HexText)
    ensures TrainingStream(c, v) == TrainingStream(d, w) <==> EffectiveConfig(c, v) == EffectiveConfig(d, w)
    ensures TrainingStream(c, v) == TrainingStream(d, w) <==> TrainAlike(c, d, v, w)
  {
    EffectiveIff(c, d, v, w);
    if TrainingStream(c, v) == TrainingStream(d, w) {
      EqualStreams(c, d, v, w);
    }
    if EffectiveConfig(c, v) == EffectiveConfig(d, w) {
      EqualConfigs(c, d, v, w);
    }
  }

  lemma EffectiveIff(c: TrainingConfig, d: TrainingConfig, v: HexText, w: HexText)
    ensures EffectiveConfig(c, v) == EffectiveConfig(d, w) <==> TrainAlike(c, d, v, w)
  {
    assert EffectivePenalty(c) == EffectivePenalty(d) <==> PenaltiesAlike(c, d);
    assert EffectiveControl(c) == EffectiveControl(d) <==> ConvergesAlike(c, d);
    hide Positive, NonNegative;
  }

  lemma EqualConfigs(c: TrainingConfig, d: TrainingConfig, v: HexText, w: HexText)
    requires EffectiveConfig(c, v) == EffectiveConfig(d, w)
    ensures TrainingStream(c, v) == TrainingStream(d, w)
  {
    hide Counted, Numbers, Number, Ascii, LossName, ScheduleName, Sections;
    assert OptimizerPayload(c) == OptimizerPayload(d);
    assert SchedulePayload(c) == SchedulePayload(d);
    assert PenaltyPayload(c) == PenaltyPayload(d);
    assert ControlPayload(c) == ControlPayload(d);
    assert EarlyPayload(c, v) == EarlyPayload(d, w);
  }

  lemma SinglePayloads(c: TrainingConfig, d: TrainingConfig, v: HexText, w: HexText)
    ensures forall i :: 0 <= i < 3 ==>
              DelimitedIfPresent(TrainingSections(c, v)[i].payload, TrainingSections(d, w)[i].payload)
  {
    hide Counted, Number, Delimited, Ascii;
    forall i | 0 <= i < 3
      ensures DelimitedIfPresent(TrainingSections(c, v)[i].payload, TrainingSections(d, w)[i].payload)
    {
      var p, q := TrainingSections(c, v)[i].payload, TrainingSections(d, w)[i].payload;
      if p.Some? && q.Some? {
        SameSizeIsDelimited(p.value, q.value);
      }
    }
  }

  lemma PayloadsAgree(c: TrainingConfig, d: TrainingConfig, v: HexText, w: HexText)
    requires TrainingSections(c, v) == TrainingSections(d, w)
    ensures PenaltyPayload(c) == PenaltyPayload(d) && OptimizerPayload(c) == OptimizerPayload(d)
    ensures SchedulePayload(c) == SchedulePayload(d) && ControlPayload(c) == ControlPayload(d)
    ensures EarlyPayload(c, v) == EarlyPayload(d, w)
    ensures c.shuffle == d.shuffle
    ensures EffectiveConfig(c, v).batch == EffectiveConfig(d, w).batch
    ensures EffectiveConfig(c, v).clip == EffectiveConfig(d, w).clip
  {
    hide Counted, Number, Numbers, Ascii, ScheduleName;
    var a, b := TrainingSections(c, v), TrainingSections(d, w);
    assert a[0].payload == b[0].payload && a[1].payload == b[1].payload && a[2].payload == b[2].payload;
    assert a[3].payload == b[3].payload && a[4].payload == b[4].payload && a[5].payload == b[5].payload;
    assert a[6].payload == b[6].payload && a[7].payload == b[7].payload;
    SingleNumber(EffectiveConfig(c, v).batch, EffectiveConfig(d, w).batch);
    SingleNumber(EffectiveConfig(c, v).clip, EffectiveConfig(d, w).clip);
  }

  lemma EqualStreams(c: TrainingConfig, d: TrainingConfig, v: HexText, w: HexText)
    requires TrainingStream(c, v) == TrainingStream(d, w)
    ensures EffectiveConfig(c, v) == EffectiveConfig(d, w)
  {
    hide Counted, Numbers, Number, Ascii, LossName, ScheduleName, Sections, TrainingHead;
    hide OptimizerPayload, SchedulePayload, PenaltyPayload, ControlPayload, EarlyPayload;
    var a, b := TrainingSections(c, v), TrainingSections(d, w);
    HeadsDetermine(c, d, Sections(a), Sections(b));
    TagsAreDistinct(c, v);
    PayloadsAreDelimited(c, d, v, w);
    SinglePayloads(c, d, v, w);
    SectionsDetermine(a, b);
    PayloadsAgree(c, d, v, w);
    OptimizerDetermined(c, d);
    ScheduleDetermined(c, d);
    PenaltyDetermined(c, d);
    ControlDetermined(c, d);
    EarlyDetermined(c, d, v, w);
  }

  // ---------- the model stream ----------

  datatype Activation = Linear | Sigmoid | Tanh | Relu | LeakyRelu | Elu | Softmax
  datatype ParameterKind = Alpha | Beta | Threshold
  datatype Parameter = Parameter(kind: ParameterKind, value: Bits)

  function ActivationName(kind: Activation): Text {
    Ascii(match kind
          case Linear => "linear"
          case Sigmoid => "sigmoid"
          case Tanh => "tanh"
          case Relu => "relu"
          case LeakyRelu => "leaky_relu"
          case Elu => "elu"
          case Softmax => "softmax")
  }

  function ParameterName(kind: ParameterKind): Text {
    Ascii(match kind
          case Alpha => "alpha"
          case Beta => "beta"
          case Threshold => "threshold")
  }

  datatype LayerSpec = LayerSpec(neurons: Word, kind: Activation, parameters: seq<Parameter>) {
    predicate Valid() {
      && neurons > 0
      && |parameters| == (if kind in {LeakyRelu, Elu} then 1 else 0)
      && forall p :: p in parameters ==>
           && p.kind == Alpha && 0 < p.value < 0x7ff0_0000_0000_0000
           && (kind == LeakyRelu ==> p.value < 0x3ff0_0000_0000_0000)
    }

    function Lookup(wanted: ParameterKind): Option<Bits> {
      Find(parameters, wanted)
    }
  }

  predicate AllValid(layers: seq<LayerSpec>) {
    forall l :: l in layers ==> l.Valid()
  }

  lemma ValidParts(layers: seq<LayerSpec>, n: nat)
    requires AllValid(layers) && n < |layers|
    ensures layers[n].Valid()
    ensures AllValid(layers[..n]) && AllValid(layers[..n + 1]) && AllValid(layers[1..])
  {
    assert layers[n] in layers;
  }

  function Find(parameters: seq<Parameter>, wanted: ParameterKind): Option<Bits> {
    if parameters == [] then None
    else if parameters[0].kind == wanted then Some(parameters[0].value)
    else Find(parameters[1..], wanted)
  }

  datatype ModelSpec = ModelSpec(inputs: Word, layers: seq<LayerSpec>) {
    predicate Valid() {
      inputs > 0 && 0 < |layers| < MODULUS && AllValid(layers)
    }
  }

  function ParameterBytes(l: LayerSpec, kind: ParameterKind): seq<Byte> {
    match l.Lookup(kind)
    case None => []
    case Some(value) => Counted(ParameterName(kind)) + Number(value)
  }

  function LayerBytes(l: LayerSpec): seq<Byte>
    requires l.Valid()
  {
    Number(l.neurons) + Counted(ActivationName(l.kind)) + Number(|l.parameters|)
    + ParameterBytes(l, Alpha) + ParameterBytes(l, Beta) + ParameterBytes(l, Threshold)
  }

  function Layers(layers: seq<LayerSpec>): seq<Byte>
    requires AllValid(layers)
  {
    if layers == [] then
      []
    else
      assert layers[0].Valid();
      LayerBytes(layers[0]) + Layers(layers[1..])
  }

  function ModelStream(m: ModelSpec): seq<Byte>
    requires m.Valid()
  {
    Counted(Ascii("neural-c:canonical:model")) + Numbers([1, m.inputs, |m.layers|]) + Layers(m.layers)
  }

  lemma ActivationNamesAreDistinct(a: Activation, b: Activation)
    requires ActivationName(a) == ActivationName(b)
    ensures a == b
  {
    assert |ActivationName(Linear)| == 6 && |ActivationName(Sigmoid)| == 7 && |ActivationName(Tanh)| == 4;
    assert |ActivationName(Relu)| == 4 && |ActivationName(LeakyRelu)| == 10 && |ActivationName(Elu)| == 3;
    assert |ActivationName(Softmax)| == 7;
    assert ActivationName(Tanh)[0] == 't' as int && ActivationName(Relu)[0] == 'r' as int;
    assert ActivationName(Sigmoid)[1] == 'i' as int && ActivationName(Softmax)[1] == 'o' as int;
  }

  /** A valid layer has no parameter, or exactly alpha. */
  lemma ValidParameters(l: LayerSpec)
    requires l.Valid()
    ensures ParameterBytes(l, Beta) == [] && ParameterBytes(l, Threshold) == []
    ensures l.parameters == [] ==> ParameterBytes(l, Alpha) == []
    ensures l.parameters != [] ==>
              l.parameters == [Parameter(Alpha, l.parameters[0].value)]
              && ParameterBytes(l, Alpha) == Counted(ParameterName(Alpha)) + Number(l.parameters[0].value)
  {
    hide Counted, Number, ParameterName;
    if l.parameters != [] {
      assert l.parameters[0] in l.parameters;
      assert l.parameters[1..] == [];
      assert Find(l.parameters, Beta) == Find([], Beta) && Find(l.parameters, Threshold) == Find([], Threshold);
    }
  }

  lemma LayerIsDelimited(a: LayerSpec, b: LayerSpec, x: seq<Byte>, y: seq<Byte>)
    requires a.Valid() && b.Valid() && LayerBytes(a) + x == LayerBytes(b) + y
    ensures a == b && x == y
  {
    hide Counted, Number, ActivationName, ParameterName;
    ValidParameters(a);
    ValidParameters(b);
    var p, q := ParameterBytes(a, Alpha), ParameterBytes(b, Alpha);
    var m, n := Number(|a.parameters|), Number(|b.parameters|);
    assert LayerBytes(a) + x == Number(a.neurons) + (Counted(ActivationName(a.kind)) + (m + (p + x)));
    assert LayerBytes(b) + y == Number(b.neurons) + (Counted(ActivationName(b.kind)) + (n + (q + y)));
    NumberIsDelimited(a.neurons, b.neurons, Counted(ActivationName(a.kind)) + (m + (p + x)),
                      Counted(ActivationName(b.kind)) + (n + (q + y)));
    CountedIsDelimited(ActivationName(a.kind), ActivationName(b.kind), m + (p + x), n + (q + y));
    ActivationNamesAreDistinct(a.kind, b.kind);
    SplitEqual(m, n, p + x, q + y);
    AlphaIsDelimited(a, b, x, y);
  }

  lemma AlphaIsDelimited(a: LayerSpec, b: LayerSpec, x: seq<Byte>, y: seq<Byte>)
    requires a.Valid() && b.Valid() && a.kind == b.kind
    requires ParameterBytes(a, Alpha) + x == ParameterBytes(b, Alpha) + y
    ensures a.parameters == b.parameters && x == y
  {
    hide Counted, Number, ParameterName;
    ValidParameters(a);
    ValidParameters(b);
    if a.parameters != [] {
      var name, v, w := Counted(ParameterName(Alpha)), a.parameters[0].value, b.parameters[0].value;
      assert (name + Number(v)) + x == name + (Number(v) + x);
      assert (name + Number(w)) + y == name + (Number(w) + y);
      SplitEqual(name, name, Number(v) + x, Number(w) + y);
      NumberIsDelimited(v, w, x, y);
    } else {
      assert [] + x == x && [] + y == y;
    }
  }

  lemma {:induction false} LayersDetermine(a: seq<LayerSpec>, b: seq<LayerSpec>)
    requires |a| == |b| && AllValid(a) && AllValid(b)
    requires Layers(a) == Layers(b)
    ensures a == b
  {
    if a != [] {
      hide LayerBytes;
      ValidParts(a, 0);
      ValidParts(b, 0);
      LayerIsDelimited(a[0], b[0], Layers(a[1..]), Layers(b[1..]));
      LayersDetermine(a[1..], b[1..]);
      assert a == [a[0]] + a[1..] && b == [b[0]] + b[1..];
    }
  }

  /** Unique decodability of the model stream. */
  lemma ModelStreamIsDecodable(m: ModelSpec, n: ModelSpec)
    requires m.Valid() && n.Valid() && ModelStream(m) == ModelStream(n)
    ensures m == n
  {
    hide Counted, Numbers, Layers, Ascii;
    var magic := Counted(Ascii("neural-c:canonical:model"));
    var x, y := [1, m.inputs, |m.layers|], [1, n.inputs, |n.layers|];
    assert ModelStream(m) == magic + (Numbers(x) + Layers(m.layers));
    assert ModelStream(n) == magic + (Numbers(y) + Layers(n.layers));
    SplitEqual(magic, magic, Numbers(x) + Layers(m.layers), Numbers(y) + Layers(n.layers));
    SplitEqual(Numbers(x), Numbers(y), Layers(m.layers), Layers(n.layers));
    NumbersDetermine(x, y);
    FirstOnes(x, y);
    LayersDetermine(m.layers, n.layers);
  }

  // ---------- the dataset stream ----------

  /** Row-major inputs and outputs. */
  datatype Dataset = Dataset(samples: Word, inputCount: Word, outputCount: Word, inputs: seq<Bits>,
                             outputs: seq<Bits>) {
    predicate Valid() {
      |inputs| == Area(samples, inputCount) && |outputs| == Area(samples, outputCount)
    }
  }

  function RowBytes(d: Dataset, s: nat): (bytes: seq<Byte>)
    requires d.Valid() && s < d.samples
    ensures |bytes| == 8 * d.inputCount + 8 * d.outputCount
  {
    AreaGrows(s + 1, d.samples, d.inputCount);
    AreaGrows(s + 1, d.samples, d.outputCount);
    Numbers(Row(d.inputs, d.inputCount, s)) + Numbers(Row(d.outputs, d.outputCount, s))
  }

  function Rows(d: Dataset, n: nat): seq<Byte>
    requires d.Valid() && n <= d.samples
  {
    if n == 0 then [] else Rows(d, n - 1) + RowBytes(d, n - 1)
  }

  function DatasetStream(d: Dataset): seq<Byte>
    requires d.Valid()
  {
    Counted(Ascii("neural-c:canonical:dataset")) + Numbers([1, d.samples, d.inputCount, d.outputCount])
    + Rows(d, d.samples)
  }

  lemma SplitFromEnd(a: seq<Byte>, b: seq<Byte>, x: seq<Byte>, y: seq<Byte>)
    requires |x| == |y| && a + x == b + y
    ensures a == b && x == y
  {
    assert |a| == |b|;
    SplitEqual(a, b, x, y);
  }

  ghost predicate SameShape(a: Dataset, b: Dataset) {
    && a.Valid() && b.Valid() && a.samples == b.samples
    && a.inputCount == b.inputCount && a.outputCount == b.outputCount
  }

  lemma RowDetermines(a: Dataset, b: Dataset, s: nat)
    requires SameShape(a, b) && s < a.samples && RowBytes(a, s) == RowBytes(b, s)
    ensures Area(s + 1, a.inputCount) <= Area(a.samples, a.inputCount)
    ensures Area(s + 1, a.outputCount) <= Area(a.samples, a.outputCount)
    ensures Row(a.inputs, a.inputCount, s) == Row(b.inputs, a.inputCount, s)
    ensures Row(a.outputs, a.outputCount, s) == Row(b.outputs, a.outputCount, s)
  {
    AreaGrows(s + 1, a.samples, a.inputCount);
    AreaGrows(s + 1, a.samples, a.outputCount);
    hide Numbers, Area, Row;
    var x, y := Row(a.inputs, a.inputCount, s), Row(b.inputs, a.inputCount, s);
    var u, v := Row(a.outputs, a.outputCount, s), Row(b.outputs, a.outputCount, s);
    SplitEqual(Numbers(x), Numbers(y), Numbers(u), Numbers(v));
    NumbersDetermine(x, y);
    NumbersDetermine(u, v);
  }

  lemma RowsStep(a: Dataset, b: Dataset, n: nat)
    requires SameShape(a, b) && 0 < n <= a.samples && Rows(a, n) == Rows(b, n)
    ensures Rows(a, n - 1) == Rows(b, n - 1) && RowBytes(a, n - 1) == RowBytes(b, n - 1)
  {
    hide Area, RowBytes;
    SplitFromEnd(Rows(a, n - 1), Rows(b, n - 1), RowBytes(a, n - 1), RowBytes(b, n - 1));
  }

  /** Rows of the same shape determine the values. */
  lemma {:induction false} RowsDetermine(a: Dataset, b: Dataset, n: nat)
    requires SameShape(a, b) && n <= a.samples && Rows(a, n) == Rows(b, n)
    ensures SamePrefix(a.inputs, b.inputs, Area(n, a.inputCount))
    ensures SamePrefix(a.outputs, b.outputs, Area(n, a.outputCount))
  {
    hide Area, Row, RowBytes, Rows, SamePrefix;
    if n == 0 {
      NothingDiffers(a.inputs, b.inputs, a.inputCount);
      NothingDiffers(a.outputs, b.outputs, a.outputCount);
    } else {
      RowsStep(a, b, n);
      RowsDetermine(a, b, n - 1);
      RowDetermines(a, b, n - 1);
      Extend(a.inputs, b.inputs, a.inputCount, n - 1);
      Extend(a.outputs, b.outputs, a.outputCount, n - 1);
    }
  }

  /** Unique decodability of the dataset stream. */
  lemma DatasetStreamIsDecodable(a: Dataset, b: Dataset)
    requires a.Valid() && b.Valid() && DatasetStream(a) == DatasetStream(b)
    ensures a == b
  {
    hide Counted, Numbers, Rows, Ascii;
    var magic := Counted(Ascii("neural-c:canonical:dataset"));
    var x := [1, a.samples, a.inputCount, a.outputCount];
    var y := [1, b.samples, b.inputCount, b.outputCount];
    assert DatasetStream(a) == magic + (Numbers(x) + Rows(a, a.samples));
    assert DatasetStream(b) == magic + (Numbers(y) + Rows(b, b.samples));
    SplitEqual(magic, magic, Numbers(x) + Rows(a, a.samples), Numbers(y) + Rows(b, b.samples));
    SplitEqual(Numbers(x), Numbers(y), Rows(a, a.samples), Rows(b, b.samples));
    NumbersDetermine(x, y);
    FirstOnes(x, y);
    RowsDetermine(a, b, a.samples);
    hide Area;
    assert a.inputs == a.inputs[..|a.inputs|] && b.inputs == b.inputs[..|a.inputs|];
    assert a.outputs == a.outputs[..|a.outputs|] && b.outputs == b.outputs[..|a.outputs|];
  }

  lemma ModelHead(m: ModelSpec) returns (rest: seq<Byte>)
    requires m.Valid()
    ensures ModelStream(m) == Counted(Ascii("neural-c:canonical:model")) + rest
  {
    hide Counted, Numbers, Layers, Ascii;
    rest := Numbers([1, m.inputs, |m.layers|]) + Layers(m.layers);
    assert ModelStream(m) == Counted(Ascii("neural-c:canonical:model")) + rest;
  }

  lemma DatasetHead(d: Dataset) returns (rest: seq<Byte>)
    requires d.Valid()
    ensures DatasetStream(d) == Counted(Ascii("neural-c:canonical:dataset")) + rest
  {
    hide Counted, Numbers, Rows, Ascii;
    rest := Numbers([1, d.samples, d.inputCount, d.outputCount]) + Rows(d, d.samples);
    assert DatasetStream(d) == Counted(Ascii("neural-c:canonical:dataset")) + rest;
  }

  lemma TrainingStreamHead(c: TrainingConfig, v: HexText) returns (rest: seq<Byte>)
    ensures TrainingStream(c, v) == Counted(Ascii("neural-c:canonical:training")) + rest
  {
    hide Counted, Numbers, Number, Sections, Ascii, LossName, TrainingSections;
    rest := Numbers([1, c.epochs, c.learningRate, c.seed]) + Counted(LossName(c.loss))
            + Number(c.checkpointInterval) + Sections(TrainingSections(c, v));
    assert TrainingStream(c, v) == Counted(Ascii("neural-c:canonical:training")) + rest;
  }

  /** No stream of one kind is a stream of another. */
  lemma DomainsAreSeparate(m: ModelSpec, d: Dataset, c: TrainingConfig, v: HexText)
    requires m.Valid() && d.Valid()
    ensures ModelStream(m) != DatasetStream(d)
    ensures ModelStream(m) != TrainingStream(c, v)
    ensures DatasetStream(d) != TrainingStream(c, v)
  {
    hide Counted, Ascii, ModelStream, DatasetStream, TrainingStream;
    var x, y, z := Ascii("neural-c:canonical:model"), Ascii("neural-c:canonical:dataset"),
                   Ascii("neural-c:canonical:training");
    assert |x| == 24 && |y| == 26 && |z| == 27;
    var modelRest := ModelHead(m);
    var dataRest := DatasetHead(d);
    var trainingRest := TrainingStreamHead(c, v);
    if ModelStream(m) == DatasetStream(d) {
      CountedIsDelimited(x, y, modelRest, dataRest);
    }
    if ModelStream(m) == TrainingStream(c, v) {
      CountedIsDelimited(x, z, modelRest, trainingRest);
    }
    if DatasetStream(d) == TrainingStream(c, v) {
      CountedIsDelimited(y, z, dataRest, trainingRest);
    }
  }

  // ---------- the encoders ----------

  lemma Associate(a: seq<Byte>, b: seq<Byte>, c: seq<Byte>)
    ensures (a + b) + c == a + (b + c)
  {
  }

  method UpdateNumber(context: Context, value: Word)
    requires context.Valid()
    modifies context, context.state, context.block
    ensures context.Valid() && context.fed == old(context.fed) + Number(value)
  {
    var encoded := EncodeWord(value);
    context.Update(encoded[..]);
  }

  method UpdateText(context: Context, text: Text)
    requires context.Valid()
    modifies context, context.state, context.block
    ensures context.Valid() && context.fed == old(context.fed) + Counted(text)
  {
    hide Context.Valid, Number;
    ghost var before := context.fed;
    UpdateNumber(context, |text|);
    context.Update(text);
    Associate(before, Number(|text|), text);
  }

  method UpdateNumbers(context: Context, values: seq<Word>)
    requires context.Valid()
    modifies context, context.state, context.block
    ensures context.Valid() && context.fed == old(context.fed) + Numbers(values)
  {
    hide Context.Valid, Number;
    ghost var before := context.fed;
    assert before + [] == before;
    for i := 0 to |values|
      invariant context.Valid() && context.fed == before + Numbers(values[..i])
    {
      UpdateNumber(context, values[i]);
      assert values[..i + 1][..i] == values[..i];
      Associate(before, Numbers(values[..i]), Number(values[i]));
    }
    assert values[..|values|] == values;
  }

  method ToHex(digest: array<Byte>) returns (output: array<char>)
    ensures fresh(output) && output[..] == Hex(digest[..])
  {
    output := new char[2 * digest.Length](i => '0');
    for i := 0 to digest.Length
      invariant output[..2 * i] == Hex(digest[..i])
    {
      output[2 * i] := HEXADECIMAL[digest[i] / 16];
      output[2 * i + 1] := HEXADECIMAL[digest[i] % 16];
      assert digest[..i + 1][..i] == digest[..i];
      assert output[..2 * (i + 1)] == output[..2 * i] + [output[2 * i], output[2 * i + 1]];
    }
    assert digest[..digest.Length] == digest[..] && output[..2 * digest.Length] == output[..];
  }

  method Finish(context: Context) returns (text: string)
    requires context.Valid()
    modifies context, context.state, context.block
    ensures text == Hex(Sha256.Digest(old(context.fed)))
  {
    hide Sha256.Digest;
    var digest := context.Final();
    var output := ToHex(digest);
    text := output[..];
  }

  method DigestDataset(d: Dataset) returns (text: string)
    requires d.Valid()
    ensures text == Hex(Sha256.Digest(DatasetStream(d)))
  {
    hide Counted, Numbers, Row, Area, Sha256.Digest, Context.Valid, Ascii;
    var context := new Context();
    UpdateText(context, Ascii("neural-c:canonical:dataset"));
    UpdateNumbers(context, [1, d.samples, d.inputCount, d.outputCount]);
    ghost var head := context.fed;
    assert head == Counted(Ascii("neural-c:canonical:dataset"))
                   + Numbers([1, d.samples, d.inputCount, d.outputCount]);
    for s := 0 to d.samples
      invariant context.Valid() && fresh(context) && fresh(context.state) && fresh(context.block)
      invariant context.fed == head + Rows(d, s)
    {
      RowBounds(d, s);
      UpdateNumbers(context, Row(d.inputs, d.inputCount, s));
      UpdateNumbers(context, Row(d.outputs, d.outputCount, s));
      assert context.fed == head + (Rows(d, s) + RowBytes(d, s));
    }
    assert context.fed == DatasetStream(d);
    text := Finish(context);
  }

  lemma RowBounds(d: Dataset, s: nat)
    requires d.Valid() && s < d.samples
    ensures Area(s + 1, d.inputCount) <= |d.inputs| && Area(s + 1, d.outputCount) <= |d.outputs|
  {
    AreaGrows(s + 1, d.samples, d.inputCount);
    AreaGrows(s + 1, d.samples, d.outputCount);
  }

  lemma LayersCons(layers: seq<LayerSpec>)
    requires AllValid(layers) && layers != []
    ensures layers[0].Valid() && AllValid(layers[1..])
    ensures Layers(layers) == LayerBytes(layers[0]) + Layers(layers[1..])
  {
    ValidParts(layers, 0);
    hide LayerBytes, LayerSpec.Valid;
  }

  lemma {:induction false} LayersSnoc(layers: seq<LayerSpec>, n: nat)
    requires AllValid(layers) && n < |layers|
    ensures layers[n].Valid() && AllValid(layers[..n]) && AllValid(layers[..n + 1])
    ensures Layers(layers[..n + 1]) == Layers(layers[..n]) + LayerBytes(layers[n])
  {
    ValidParts(layers, n);
    hide LayerBytes, LayerSpec.Valid, Layers, AllValid;
    LayersCons(layers[..n + 1]);
    if n == 0 {
      assert layers[..1][1..] == [] && layers[..0] == [];
      NoLayers();
      assert LayerBytes(layers[0]) + [] == [] + LayerBytes(layers[0]);
    } else {
      ValidParts(layers, 0);
      LayersSnoc(layers[1..], n - 1);
      LayersShift(layers, n);
    }
  }

  lemma LayersShift(layers: seq<LayerSpec>, n: nat)
    requires 0 < n < |layers| && AllValid(layers[..n]) && AllValid(layers[..n + 1]) && layers[n].Valid()
    requires AllValid(layers[1..][..n - 1]) && AllValid(layers[1..][..n])
    requires Layers(layers[1..][..n]) == Layers(layers[1..][..n - 1]) + LayerBytes(layers[n])
    ensures Layers(layers[..n + 1]) == Layers(layers[..n]) + LayerBytes(layers[n])
  {
    hide LayerBytes, LayerSpec.Valid, Layers, AllValid;
    LayersCons(layers[..n + 1]);
    LayersCons(layers[..n]);
    assert layers[..n + 1][1..] == layers[1..][..n] && layers[..n][1..] == layers[1..][..n - 1];
    Associate(LayerBytes(layers[0]), Layers(layers[1..][..n - 1]), LayerBytes(layers[n]));
  }

  lemma NoLayers()
    ensures AllValid([]) && Layers([]) == []
  {
  }

  /** One layer; the count tells whether its parameters were all canonical. */
  method UpdateLayer(context: Context, l: LayerSpec) returns (canonical: bool)
    requires context.Valid() && l.Valid()
    modifies context, context.state, context.block
    ensures context.Valid() && context.fed == old(context.fed) + LayerBytes(l)
    ensures canonical
  {
    hide Context.Valid, Number, Counted, ActivationName, ParameterName, Find;
    ghost var before := context.fed;
    UpdateNumber(context, l.neurons);
    UpdateText(context, ActivationName(l.kind));
    UpdateNumber(context, |l.parameters|);
    var kinds := [Alpha, Beta, Threshold];
    var count := 0;
    ghost var head := context.fed;
    for i := 0 to 3
      invariant context.Valid()
      invariant context.fed == head + ParametersUpTo(l, i)
      invariant count == ParameterCount(l, i)
    {
      var value := l.Lookup(kinds[i]);
      ghost var here := context.fed;
      if value.Some? {
        UpdateText(context, ParameterName(kinds[i]));
        UpdateNumber(context, value.value);
        count := count + 1;
        Associate(here, Counted(ParameterName(kinds[i])), Number(value.value));
      }
      Associate(head, ParametersUpTo(l, i), ParameterBytes(l, kinds[i]));
      assert here + ParameterBytes(l, kinds[i]) == context.fed;
    }
    AllCounted(l);
    canonical := count == |l.parameters|;
    LayerAssembled(l, before, head);
  }

  function ParameterAt(i: nat): ParameterKind {
    if i == 0 then Alpha else if i == 1 then Beta else Threshold
  }

  function ParametersUpTo(l: LayerSpec, i: nat): seq<Byte> {
    if i == 0 then [] else ParametersUpTo(l, i - 1) + ParameterBytes(l, ParameterAt(i - 1))
  }

  function ParameterCount(l: LayerSpec, i: nat): nat {
    if i == 0 then 0 else ParameterCount(l, i - 1) + if l.Lookup(ParameterAt(i - 1)).Some? then 1 else 0
  }

  /** Every parameter of a valid layer is found, so the encoder's own consistency
      check cannot fail. */
  lemma AllCounted(l: LayerSpec)
    requires l.Valid()
    ensures ParameterCount(l, 3) == |l.parameters|
  {
    if l.parameters != [] {
      assert l.parameters[0] in l.parameters && l.parameters[1..] == [];
      assert Find(l.parameters, Beta) == Find([], Beta) && Find(l.parameters, Threshold) == Find([], Threshold);
    }
    assert ParameterCount(l, 3) == ParameterCount(l, 2) + if l.Lookup(Threshold).Some? then 1 else 0;
    assert ParameterCount(l, 2) == ParameterCount(l, 1) + if l.Lookup(Beta).Some? then 1 else 0;
    assert ParameterCount(l, 1) == ParameterCount(l, 0) + if l.Lookup(Alpha).Some? then 1 else 0;
  }

  lemma LayerAssembled(l: LayerSpec, before: seq<Byte>, head: seq<Byte>)
    requires l.Valid()
    requires head == before + Number(l.neurons) + Counted(ActivationName(l.kind)) + Number(|l.parameters|)
    ensures head + ParametersUpTo(l, 3) == before + LayerBytes(l)
  {
    hide Number, Counted, ActivationName, ParameterBytes;
    var a, b, c := ParameterBytes(l, Alpha), ParameterBytes(l, Beta), ParameterBytes(l, Threshold);
    assert ParametersUpTo(l, 1) == [] + a == a;
    assert ParametersUpTo(l, 2) == a + b;
    assert ParametersUpTo(l, 3) == a + b + c;
    Regroup(before, Number(l.neurons), Counted(ActivationName(l.kind)), Number(|l.parameters|), a, b, c);
  }

  lemma Regroup(p: seq<Byte>, x: seq<Byte>, y: seq<Byte>, z: seq<Byte>, a: seq<Byte>, b: seq<Byte>, c: seq<Byte>)
    ensures (p + x + y + z) + (a + b + c) == p + (x + y + z + a + b + c)
  {
    var l, r := (p + x + y + z) + (a + b + c), p + (x + y + z + a + b + c);
    assert |l| == |r|;
    Associate(p, x, y);
    Associate(p, x + y, z);
    Associate(p, x + y + z, a + b + c);
    Associate(x + y + z, a, b);
    Associate(x + y + z, a + b, c);
  }

  method UpdateLayers(context: Context, layers: seq<LayerSpec>) returns (canonical: bool)
    requires context.Valid() && AllValid(layers)
    modifies context, context.state, context.block
    ensures context.Valid() && context.fed == old(context.fed) + Layers(layers)
    ensures canonical
  {
    hide LayerBytes, Layers, Context.Valid, LayerSpec.Valid, AllValid;
    ghost var head := context.fed;
    NoLayers();
    assert layers[..0] == [] && head + [] == head;
    for i := 0 to |layers|
      invariant context.Valid()
      invariant AllValid(layers[..i]) && context.fed == head + Layers(layers[..i])
    {
      LayersSnoc(layers, i);
      canonical := UpdateLayer(context, layers[i]);
      Associate(head, Layers(layers[..i]), LayerBytes(layers[i]));
      if !canonical {
        return;
      }
    }
    canonical := true;
    assert layers[..|layers|] == layers;
  }

  method DigestModel(m: ModelSpec) returns (text: Option<string>)
    ensures text == if m.Valid() then Some(Hex(Sha256.Digest(ModelStream(m)))) else None
  {
    if !m.Valid() {
      return None;
    }
    hide Counted, Numbers, LayerBytes, Layers, Sha256.Digest, Context.Valid, Ascii, AllValid, Hex;
    var context := new Context();
    UpdateText(context, Ascii("neural-c:canonical:model"));
    UpdateNumbers(context, [1, m.inputs, |m.layers|]);
    var canonical := UpdateLayers(context, m.layers);
    if !canonical {
      return None;
    }
    assert context.fed == ModelStream(m);
    var hex := Finish(context);
    text := Some(hex);
  }

  function ValidationText(d: Dataset): HexText
    requires d.Valid()
  {
    Ascii(Hex(Sha256.Digest(DatasetStream(d))))
  }

  function Piece(s: Section): seq<Byte> {
    if s.payload.None? then [] else Counted(s.tag) + s.payload.value
  }

  lemma {:induction false} SectionsSnoc(sections: seq<Section>, n: nat)
    requires n < |sections|
    ensures Sections(sections[..n + 1]) == Sections(sections[..n]) + Piece(sections[n])
  {
    hide Counted;
    if n == 0 {
      assert sections[..1][1..] == [] && sections[..0] == [];
    } else {
      SectionsSnoc(sections[1..], n - 1);
      assert sections[..n + 1][1..] == sections[1..][..n] && sections[..n][1..] == sections[1..][..n - 1];
      Associate(Piece(sections[0]), Sections(sections[1..][..n - 1]), Piece(sections[n]));
      SectionsCons(sections[..n + 1]);
      SectionsCons(sections[..n]);
    }
  }

  lemma SectionsCons(sections: seq<Section>)
    requires sections != []
    ensures Sections(sections) == Piece(sections[0]) + Sections(sections[1..])
  {
    hide Counted;
    if sections[0].payload.Some? {
      Associate(Counted(sections[0].tag), sections[0].payload.value, Sections(sections[1..]));
    }
  }

  /** A present section: its tag, perhaps a version text, and numbers. */
  method UpdateSection(context: Context, tag: Text, version: Text, numbers: seq<Word>)
    requires context.Valid()
    modifies context, context.state, context.block
    ensures context.Valid()
    ensures context.fed == old(context.fed) + (Counted(tag) + (Counted(version) + Numbers(numbers)))
  {
    hide Context.Valid, Counted, Numbers;
    ghost var before := context.fed;
    UpdateText(context, tag);
    UpdateText(context, version);
    UpdateNumbers(context, numbers);
    Associate(before, Counted(tag), Counted(version));
    Associate(before, Counted(tag) + Counted(version), Numbers(numbers));
    Associate(Counted(tag), Counted(version), Numbers(numbers));
  }

  method UpdateBatching(context: Context, c: TrainingConfig, v: HexText)
    requires context.Valid()
    modifies context, context.state, context.block
    ensures context.Valid()
    ensures context.fed == old(context.fed) + Sections(TrainingSections(c, v)[..3])
  {
    hide Context.Valid, Counted, Number, Sections, Ascii;
    ghost var before, sections := context.fed, TrainingSections(c, v);
    NoSections(before, sections);
    if c.batchSize != 0 {
      UpdateText(context, Ascii("mini_batch"));
      UpdateNumber(context, c.batchSize);
      Associate(before, Counted(Ascii("mini_batch")), Number(c.batchSize));
    }
    Joins(before, sections, 0, context.fed);
    ghost var first := context.fed;
    if c.shuffle {
      UpdateText(context, Ascii("epoch_shuffle"));
      UpdateText(context, Ascii("splitmix64_fisher_yates_v1"));
      Associate(first, Counted(Ascii("epoch_shuffle")), Counted(Ascii("splitmix64_fisher_yates_v1")));
    }
    Joins(before, sections, 1, context.fed);
    ghost var second := context.fed;
    if Positive(c.gradientClipNorm) {
      UpdateText(context, Ascii("gradient_clip_norm"));
      UpdateNumber(context, c.gradientClipNorm);
      Associate(second, Counted(Ascii("gradient_clip_norm")), Number(c.gradientClipNorm));
    }
    Joins(before, sections, 2, context.fed);
  }

  lemma NoSections(before: seq<Byte>, sections: seq<Section>)
    ensures before + Sections(sections[..0]) == before
  {
  }

  lemma Joins(before: seq<Byte>, sections: seq<Section>, n: nat, after: seq<Byte>)
    requires n < |sections|
    requires after == before + Sections(sections[..n]) + Piece(sections[n])
    ensures after == before + Sections(sections[..n + 1])
  {
    hide Piece, Sections;
    SectionsSnoc(sections, n);
    Associate(before, Sections(sections[..n]), Piece(sections[n]));
  }

  method UpdatePenalty(context: Context, c: TrainingConfig, v: HexText, ghost before: seq<Byte>)
    requires context.Valid() && context.fed == before + Sections(TrainingSections(c, v)[..3])
    modifies context, context.state, context.block
    ensures context.Valid()
    ensures context.fed == before + Sections(TrainingSections(c, v)[..4])
  {
    hide Context.Valid, Counted, Numbers, Sections, Ascii, ScheduleName;
    ghost var sections := TrainingSections(c, v);
    if Positive(c.l1) || Positive(c.l2) {
      UpdateSection(context, Ascii("regularization"), Ascii("l1_l2_v1"),
                    [c.l1, c.l2, if c.regularizeBiases then 1 else 0]);
    }
    Joins(before, sections, 3, context.fed);
  }

  method UpdateOptimizer(context: Context, c: TrainingConfig, v: HexText, ghost before: seq<Byte>)
    requires context.Valid() && context.fed == before + Sections(TrainingSections(c, v)[..4])
    modifies context, context.state, context.block
    ensures context.Valid()
    ensures context.fed == before + Sections(TrainingSections(c, v)[..5])
  {
    hide Context.Valid, Counted, Numbers, Sections, Ascii, ScheduleName;
    ghost var sections := TrainingSections(c, v);
    if c.optimizer == Momentum {
      UpdateSection(context, Ascii("optimizer"), Ascii("momentum_v1"), [c.momentum]);
    } else if c.optimizer == Adam {
      UpdateSection(context, Ascii("optimizer"), Ascii("adam_v1"), [c.beta1, c.beta2, c.epsilon]);
    }
    Joins(before, sections, 4, context.fed);
  }

  method UpdatePolicies(context: Context, c: TrainingConfig, v: HexText, ghost before: seq<Byte>)
    requires context.Valid() && context.fed == before + Sections(TrainingSections(c, v)[..5])
    modifies context, context.state, context.block
    ensures context.Valid()
    ensures context.fed == before + Sections(TrainingSections(c, v)[..7])
  {
    hide Context.Valid, Counted, Numbers, Sections, Ascii, ScheduleName;
    ghost var sections := TrainingSections(c, v);
    if c.schedule != Constant {
      var numbers := [c.decay];
      if c.schedule == Step {
        numbers := [c.decay, c.stepEpochs];
      } else if c.schedule == Plateau {
        numbers := [c.decay, c.plateauPatience, c.plateauMinDelta];
      }
      UpdateSection(context, Ascii("learning_rate_schedule"), ScheduleName(c.schedule), numbers);
    }
    Joins(before, sections, 5, context.fed);
    if Positive(c.divergenceThreshold) || NonNegative(c.targetLoss) || c.maxNoImprovementEpochs != 0 {
      UpdateSection(context, Ascii("convergence_control"), Ascii("loss_v1"),
                    [c.divergenceThreshold, c.targetLoss, c.maxNoImprovementEpochs, c.noImprovementMinDelta]);
    }
    Joins(before, sections, 6, context.fed);
  }

  method UpdateEarlyStopping(context: Context, c: TrainingConfig, v: HexText, ghost before: seq<Byte>)
    requires context.Valid() && context.fed == before + Sections(TrainingSections(c, v)[..7])
    modifies context, context.state, context.block
    ensures context.Valid()
    ensures context.fed == before + Sections(TrainingSections(c, v))
  {
    hide Context.Valid, Counted, Numbers, Sections, Ascii;
    ghost var sections, here := TrainingSections(c, v), context.fed;
    if c.earlyStoppingPatience != 0 {
      UpdateText(context, Ascii("early_stopping"));
      UpdateNumbers(context, [c.earlyStoppingPatience, c.earlyStoppingMinDelta]);
      UpdateText(context, v);
      ghost var tag, numbers := Counted(Ascii("early_stopping")),
          Numbers([c.earlyStoppingPatience, c.earlyStoppingMinDelta]);
      Associate(here, tag, numbers);
      Associate(here, tag + numbers, Counted(v));
      Associate(tag, numbers, Counted(v));
    }
    Joins(before, sections, 7, context.fed);
    assert sections[..8] == sections;
  }

  method UpdateTraining(context: Context, c: TrainingConfig, v: HexText)
    requires context.Valid() && context.fed == []
    modifies context, context.state, context.block
    ensures context.Valid() && context.fed == TrainingStream(c, v)
  {
    hide Context.Valid, Counted, Numbers, Number, Sections, Ascii, LossName, TrainingSections;
    UpdateText(context, Ascii("neural-c:canonical:training"));
    UpdateNumbers(context, [1, c.epochs, c.learningRate, c.seed]);
    UpdateText(context, LossName(c.loss));
    UpdateNumber(context, c.checkpointInterval);
    ghost var head := context.fed;
    assert head == TrainingHead(c);
    UpdateBatching(context, c, v);
    UpdatePenalty(context, c, v, head);
    UpdateOptimizer(context, c, v, head);
    UpdatePolicies(context, c, v, head);
    UpdateEarlyStopping(context, c, v, head);
  }

  /** Early stopping binds the validation data through their own digest. */
  method DigestTraining(c: TrainingConfig, validation: Option<Dataset>) returns (text: string)
    requires validation.Some? ==> validation.value.Valid()
    requires c.earlyStoppingPatience != 0 ==> validation.Some?
    ensures c.earlyStoppingPatience != 0 ==>
              text == Hex(Sha256.Digest(TrainingStream(c, ValidationText(validation.value))))
    ensures c.earlyStoppingPatience == 0 ==> forall v: HexText :: text == Hex(Sha256.Digest(TrainingStream(c, v)))
  {
    var v: HexText := seq(64, i => 0);
    if c.earlyStoppingPatience != 0 {
      var digest := DigestDataset(validation.value);
      v := Ascii(digest);
    }
    hide Context.Valid, TrainingStream, Sha256.Digest, Hex;
    UnusedValidation(c, v);
    var context := new Context();
    UpdateTraining(context, c, v);
    text := Finish(context);
  }

  lemma UnusedValidation(c: TrainingConfig, v: HexText)
    ensures c.earlyStoppingPatience == 0 ==>
              forall w: HexText :: TrainingStream(c, w) == TrainingStream(c, v)
  {
    hide TrainingHead, Sections;
  }
}
