/** The text files of a project at the level of lines and tokens: weights,
    checkpoints and early-stopping checkpoints, written and read back. */
module Persistence {
  import opened Options
  import opened Words
  import opened Layers
  import Schedule
  import opened Training

  type Line = seq<string>

  /** A value and the lines that follow it. */
  datatype Parsed<+T> = Bad | Good(value: T, rest: seq<Line>) {
    predicate IsFailure() { Bad? }
    function PropagateFailure<U>(): Parsed<U>
      requires IsFailure()
    {
      Bad
    }
    function Extract(): (T, seq<Line>)
      requires !IsFailure()
    {
      (value, rest)
    }
  }

  /** Real numbers as text, and the two range tests of the restore validators. */
  datatype Numerals<!R> = Numerals(
    zero: R, print_: R -> string, parse: string -> Option<R>, positive: R -> bool, unit: R -> bool)

  /** DBL_DECIMAL_DIG digits reproduce every number. */
  ghost predicate Exact<R(!new)>(num: Numerals<R>) {
    forall r :: num.parse(num.print_(r)) == Some(r)
  }

  // ---------- tokens ----------

  function Digit(n: nat): char
    requires n < 10
  {
    ('0' as int + n) as char
  }

  function Decimal(n: nat): (text: string)
    ensures text != ""
  {
    if n < 10 then [Digit(n)] else Decimal(n / 10) + [Digit(n % 10)]
  }

  function DecimalValue(text: string): Option<nat> {
    if text == "" then
      Some(0)
    else
      var last := text[|text| - 1];
      match DecimalValue(text[..|text| - 1])
      case None => None
      case Some(high) => if '0' <= last <= '9' then Some(10 * high + (last as int - '0' as int)) else None
  }

  function ParseSize(text: string): Option<Word> {
    if text == "" then
      None
    else
      match DecimalValue(text)
      case None => None
      case Some(n) => if n <= SIZE_MAX then Some(n) else None
  }

  lemma {:induction false} DecimalRoundTrip(n: nat)
    ensures DecimalValue(Decimal(n)) == Some(n)
  {
    if n < 10 {
      assert [Digit(n)][..0] == "";
    } else {
      DecimalRoundTrip(n / 10);
      assert Decimal(n)[..|Decimal(n)| - 1] == Decimal(n / 10);
    }
  }

  function OptimizerName(kind: Schedule.Kind): string {
    match kind
    case GradientDescent => "gradient_descent"
    case Momentum => "momentum"
    case Adam => "adam"
  }

  function OptimizerFromName(name: string): Option<Schedule.Kind> {
    if name == "gradient_descent" then Some(Schedule.GradientDescent)
    else if name == "momentum" then Some(Schedule.Momentum)
    else if name == "adam" then Some(Schedule.Adam)
    else None
  }

  function ScheduleName(kind: Schedule.ScheduleKind): string {
    match kind
    case Constant => "constant"
    case Step => "step"
    case Exponential => "exponential"
    case Plateau => "plateau"
  }

  function ScheduleFromName(name: string): Option<Schedule.ScheduleKind> {
    if name == "constant" then Some(Schedule.Constant)
    else if name == "step" then Some(Schedule.Step)
    else if name == "exponential" then Some(Schedule.Exponential)
    else if name == "plateau" then Some(Schedule.Plateau)
    else None
  }

  function CompletionName(reason: Completion): string {
    match reason
    case TargetEpochs => "target"
    case StoppedEarly => "early_stopping"
    case LossTargetReached => "loss_target"
    case NoImprovementReached => "no_improvement"
  }

  function CompletionFromName(name: string): Option<Completion> {
    if name == "target" then Some(TargetEpochs)
    else if name == "early_stopping" then Some(StoppedEarly)
    else if name == "loss_target" then Some(LossTargetReached)
    else if name == "no_improvement" then Some(NoImprovementReached)
    else None
  }

  lemma NamesRoundTrip(kind: Schedule.Kind, schedule: Schedule.ScheduleKind, reason: Completion)
    ensures OptimizerFromName(OptimizerName(kind)) == Some(kind)
    ensures ScheduleFromName(ScheduleName(schedule)) == Some(schedule)
    ensures CompletionFromName(CompletionName(reason)) == Some(reason)
  {
    assert |"gradient_descent"| == 16 && |"momentum"| == 8 && |"adam"| == 4;
    assert |"constant"| == 8 && |"step"| == 4 && |"exponential"| == 11 && |"plateau"| == 7;
    assert |"target"| == 6 && |"early_stopping"| == 14 && |"loss_target"| == 11 && |"no_improvement"| == 14;
    assert "early_stopping"[0] == 'e' && "no_improvement"[0] == 'n';
  }

  predicate HexDigest(text: string) {
    |text| == 64 && forall c :: c in text ==> '0' <= c <= '9' || 'a' <= c <= 'f'
  }

  // ---------- single lines ----------

  function Expect(lines: seq<Line>, count: nat, first: string): Parsed<Line>
    requires count > 0
  {
    if lines == [] || |lines[0]| != count || lines[0][0] != first then Bad else Good(lines[0], lines[1..])
  }

  function ReadSize(lines: seq<Line>, name: string): Parsed<Word> {
    var line :- Expect(lines, 2, name);
    match ParseSize(line.0[1])
    case None => Bad
    case Some(value) => Good(value, line.1)
  }

  function ReadReal<R>(num: Numerals<R>, lines: seq<Line>, name: string): Parsed<R> {
    var line :- Expect(lines, 2, name);
    match num.parse(line.0[1])
    case None => Bad
    case Some(value) => Good(value, line.1)
  }

  const PREFIX: string := "sha256:"

  function ReadDigest(lines: seq<Line>, name: string): Parsed<string> {
    var line :- Expect(lines, 2, name);
    var encoded := line.0[1];
    if |encoded| >= 7 && encoded[..7] == PREFIX && HexDigest(encoded[7..]) then Good(encoded[7..], line.1) else Bad
  }

  /** A flag written as 0 or 1. */
  function ReadFlag(lines: seq<Line>, name: string): Parsed<bool> {
    var line :- Expect(lines, 2, name);
    if line.0[1] == "0" then Good(false, line.1) else if line.0[1] == "1" then Good(true, line.1) else Bad
  }

  /** Writers put their lines in front of what follows. */
  function WriteSize(name: string, value: Word, tail: seq<Line>): seq<Line> {
    [[name, Decimal(value)]] + tail
  }

  function WriteReal<R>(num: Numerals<R>, name: string, value: R, tail: seq<Line>): seq<Line> {
    [[name, num.print_(value)]] + tail
  }

  function WriteDigest(name: string, digest: string, tail: seq<Line>): seq<Line> {
    [[name, PREFIX + digest]] + tail
  }

  function WriteFlag(name: string, flag: bool, tail: seq<Line>): seq<Line> {
    [[name, if flag then "1" else "0"]] + tail
  }

  lemma SizeLine(name: string, value: Word, tail: seq<Line>)
    ensures ReadSize(WriteSize(name, value, tail), name) == Good(value, tail)
  {
    DecimalRoundTrip(value);
  }

  lemma RealLine<R(!new)>(num: Numerals<R>, name: string, value: R, tail: seq<Line>)
    requires Exact(num)
    ensures ReadReal(num, WriteReal(num, name, value, tail), name) == Good(value, tail)
  {
  }

  lemma DigestLine(name: string, digest: string, tail: seq<Line>)
    requires HexDigest(digest)
    ensures ReadDigest(WriteDigest(name, digest, tail), name) == Good(digest, tail)
  {
    assert (PREFIX + digest)[..7] == PREFIX && (PREFIX + digest)[7..] == digest;
  }

  lemma FlagLine(name: string, flag: bool, tail: seq<Line>)
    ensures ReadFlag(WriteFlag(name, flag, tail), name) == Good(flag, tail)
  {
    assert "0"[0] == '0' && "1"[0] == '1';
  }

  // ---------- parameters ----------

  function ShapeOf<R>(layers: seq<Layer<R>>): seq<(nat, nat)> {
    seq(|layers|, i requires 0 <= i < |layers| => (|layers[i].weights|, |layers[i].biases|))
  }

  function WriteValues<R>(num: Numerals<R>, values: seq<R>, tail: seq<Line>): seq<Line> {
    if values == [] then tail else [[num.print_(values[0])]] + WriteValues(num, values[1..], tail)
  }

  function ReadValues<R>(num: Numerals<R>, lines: seq<Line>, count: nat): Parsed<seq<R>> {
    if count == 0 then
      Good([], lines)
    else if lines == [] || |lines[0]| != 1 then
      Bad
    else
      match num.parse(lines[0][0])
      case None => Bad
      case Some(value) =>
        var others :- ReadValues(num, lines[1..], count - 1);
        Good([value] + others.0, others.1)
  }

  lemma {:induction false} ValuesRoundTrip<R(!new)>(num: Numerals<R>, values: seq<R>, tail: seq<Line>)
    requires Exact(num)
    ensures ReadValues(num, WriteValues(num, values, tail), |values|) == Good(values, tail)
  {
    if values != [] {
      ValuesRoundTrip(num, values[1..], tail);
      var lines := WriteValues(num, values, tail);
      assert lines[0] == [num.print_(values[0])] && lines[1..] == WriteValues(num, values[1..], tail);
      assert values == [values[0]] + values[1..];
    }
  }

  function WriteLayer<R>(num: Numerals<R>, layer: Layer<R>, index: Word, tail: seq<Line>): seq<Line> {
    WriteSize("layer", index,
              [["weights"]] + WriteValues(num, layer.weights,
                                          [["biases"]] + WriteValues(num, layer.biases, [["end_layer"]] + tail)))
  }

  function ReadLayer<R>(num: Numerals<R>, lines: seq<Line>, shape: (nat, nat), index: nat): Parsed<Layer<R>> {
    var header :- ReadSize(lines, "layer");
    if header.0 != index then
      Bad
    else
      var weightsLine :- Expect(header.1, 1, "weights");
      var weights :- ReadValues(num, weightsLine.1, shape.0);
      var biasesLine :- Expect(weights.1, 1, "biases");
      var biases :- ReadValues(num, biasesLine.1, shape.1);
      var end :- Expect(biases.1, 1, "end_layer");
      Good(Layer(weights.0, biases.0), end.1)
  }

  lemma LayerRoundTrip<R(!new)>(num: Numerals<R>, layer: Layer<R>, index: Word, tail: seq<Line>)
    requires Exact(num)
    ensures ReadLayer(num, WriteLayer(num, layer, index, tail), (|layer.weights|, |layer.biases|), index)
         == Good(layer, tail)
  {
    hide ReadSize, WriteSize, ReadValues, WriteValues;
    var last := [["end_layer"]] + tail;
    var biases := WriteValues(num, layer.biases, last);
    var middle := [["biases"]] + biases;
    var weights := WriteValues(num, layer.weights, middle);
    SizeLine("layer", index, [["weights"]] + weights);
    ValuesRoundTrip(num, layer.weights, middle);
    ValuesRoundTrip(num, layer.biases, last);
  }

  /** All layers from `index` on, then the end line. */
  function WriteLayers<R>(num: Numerals<R>, layers: seq<Layer<R>>, index: nat, tail: seq<Line>): seq<Line>
    requires index + |layers| <= MODULUS
  {
    if layers == [] then [["end"]] + tail
    else WriteLayer(num, layers[0], index, WriteLayers(num, layers[1..], index + 1, tail))
  }

  function ReadLayers<R>(num: Numerals<R>, lines: seq<Line>, shape: seq<(nat, nat)>, index: nat)
    : Parsed<seq<Layer<R>>>
    decreases |shape|
  {
    if shape == [] then
      var end :- Expect(lines, 1, "end");
      Good([], end.1)
    else
      var first :- ReadLayer(num, lines, shape[0], index);
      var others :- ReadLayers(num, first.1, shape[1..], index + 1);
      Good([first.0] + others.0, others.1)
  }

  /** Parameters round-trip for every layer shape. */
  lemma {:induction false} LayersRoundTrip<R(!new)>(num: Numerals<R>, layers: seq<Layer<R>>, index: nat,
                                                    tail: seq<Line>)
    requires Exact(num) && index + |layers| <= MODULUS
    ensures ReadLayers(num, WriteLayers(num, layers, index, tail), ShapeOf(layers), index) == Good(layers, tail)
  {
    hide ReadLayer, WriteLayer;
    if layers != [] {
      LayersRoundTrip(num, layers[1..], index + 1, tail);
      LayerRoundTrip(num, layers[0], index, WriteLayers(num, layers[1..], index + 1, tail));
      assert ShapeOf(layers)[1..] == ShapeOf(layers[1..]);
      assert layers == [layers[0]] + layers[1..];
    }
  }

  // ---------- optimizer state ----------

  datatype Buffers<R> = NoBuffers | MomentumBuffers(velocity: seq<Layer<R>>)
                      | AdamBuffers(beta1Power: R, beta2Power: R, first: seq<Layer<R>>, second: seq<Layer<R>>)

  datatype State<R> = State(
    timestep: Word, schedule: Schedule.ScheduleKind, completed: Word, rate: R, nextTransition: Word,
    best: Option<R>, stale: Word, convergenceBest: Option<R>, convergenceStale: Word, reason: Schedule.Reason,
    buffers: Buffers<R>)

  function KindOf<R>(buffers: Buffers<R>): Schedule.Kind {
    match buffers
    case NoBuffers => Schedule.GradientDescent
    case MomentumBuffers(_) => Schedule.Momentum
    case AdamBuffers(_, _, _, _) => Schedule.Adam
  }

  ghost predicate Shaped<R>(buffers: Buffers<R>, shape: seq<(nat, nat)>) {
    match buffers
    case NoBuffers => true
    case MomentumBuffers(v) => ShapeOf(v) == shape
    case AdamBuffers(_, _, m, v) => ShapeOf(m) == shape && ShapeOf(v) == shape
  }

  function ReasonCode(reason: Schedule.Reason): Word {
    match reason
    case NoReason => 0
    case LossTarget => 1
    case NoImprovement => 2
  }

  function ReasonFromCode(code: Word): Option<Schedule.Reason> {
    if code == 0 then Some(Schedule.NoReason)
    else if code == 1 then Some(Schedule.LossTarget)
    else if code == 2 then Some(Schedule.NoImprovement)
    else None
  }

  function WriteOptional<R>(num: Numerals<R>, name: string, value: Option<R>, tail: seq<Line>): seq<Line> {
    match value
    case None => tail
    case Some(v) => WriteReal(num, name, v, tail)
  }

  function ReadOptional<R>(num: Numerals<R>, lines: seq<Line>, name: string, present: bool): Parsed<Option<R>> {
    if !present then
      Good(None, lines)
    else
      var value :- ReadReal(num, lines, name);
      Good(Some(value.0), value.1)
  }

  function WriteBuffers<R>(num: Numerals<R>, buffers: Buffers<R>, tail: seq<Line>): seq<Line>
    requires BuffersFit(buffers)
  {
    match buffers
    case NoBuffers => tail
    case MomentumBuffers(v) => [["optimizer_state1"]] + WriteLayers(num, v, 0, tail)
    case AdamBuffers(b1, b2, m, v) =>
      WriteReal(num, "optimizer_beta1_power", b1,
        WriteReal(num, "optimizer_beta2_power", b2,
          [["optimizer_state1"]] + WriteLayers(num, m, 0, [["optimizer_state2"]] + WriteLayers(num, v, 0, tail))))
  }

  predicate BuffersFit<R>(buffers: Buffers<R>) {
    match buffers
    case NoBuffers => true
    case MomentumBuffers(v) => |v| <= MODULUS
    case AdamBuffers(_, _, m, v) => |m| <= MODULUS && |v| <= MODULUS
  }

  function ReadBuffers<R>(num: Numerals<R>, lines: seq<Line>, kind: Schedule.Kind, shape: seq<(nat, nat)>)
    : Parsed<Buffers<R>>
  {
    match kind
    case GradientDescent => Good(NoBuffers, lines)
    case Momentum =>
      var header :- Expect(lines, 1, "optimizer_state1");
      var velocity :- ReadLayers(num, header.1, shape, 0);
      Good(MomentumBuffers(velocity.0), velocity.1)
    case Adam =>
      var beta1 :- ReadReal(num, lines, "optimizer_beta1_power");
      var beta2 :- ReadReal(num, beta1.1, "optimizer_beta2_power");
      var header1 :- Expect(beta2.1, 1, "optimizer_state1");
      var first :- ReadLayers(num, header1.1, shape, 0);
      var header2 :- Expect(first.1, 1, "optimizer_state2");
      var second :- ReadLayers(num, header2.1, shape, 0);
      Good(AdamBuffers(beta1.0, beta2.0, first.0, second.0), second.1)
  }

  lemma BuffersRoundTrip<R(!new)>(num: Numerals<R>, buffers: Buffers<R>, shape: seq<(nat, nat)>, tail: seq<Line>)
    requires Exact(num) && BuffersFit(buffers) && Shaped(buffers, shape)
    ensures ReadBuffers(num, WriteBuffers(num, buffers, tail), KindOf(buffers), shape) == Good(buffers, tail)
  {
    hide ReadLayers, WriteLayers, ReadReal, WriteReal, Exact;
    match buffers {
      case NoBuffers =>
      case MomentumBuffers(v) =>
        LayersRoundTrip(num, v, 0, tail);
      case AdamBuffers(b1, b2, m, v) =>
        var last := [["optimizer_state2"]] + WriteLayers(num, v, 0, tail);
        var states := [["optimizer_state1"]] + WriteLayers(num, m, 0, last);
        RealLine(num, "optimizer_beta1_power", b1, WriteReal(num, "optimizer_beta2_power", b2, states));
        RealLine(num, "optimizer_beta2_power", b2, states);
        LayersRoundTrip(num, m, 0, last);
        LayersRoundTrip(num, v, 0, tail);
    }
  }

  function WriteConvergence<R>(num: Numerals<R>, s: State<R>, tail: seq<Line>): seq<Line> {
    WriteFlag("convergence_has_best", s.convergenceBest.Some?,
      WriteSize("convergence_stale_epochs", s.convergenceStale,
        WriteSize("convergence_reason", ReasonCode(s.reason),
          WriteOptional(num, "convergence_best_loss", s.convergenceBest, tail))))
  }

  function ReadConvergence<R>(num: Numerals<R>, lines: seq<Line>): Parsed<(Option<R>, Word, Schedule.Reason)> {
    var hasBest :- ReadFlag(lines, "convergence_has_best");
    var stale :- ReadSize(hasBest.1, "convergence_stale_epochs");
    var code :- ReadSize(stale.1, "convergence_reason");
    match ReasonFromCode(code.0)
    case None => Bad
    case Some(reason) =>
      var best :- ReadOptional(num, code.1, "convergence_best_loss", hasBest.0);
      Good((best.0, stale.0, reason), best.1)
  }

  lemma OptionalLine<R(!new)>(num: Numerals<R>, name: string, value: Option<R>, tail: seq<Line>)
    requires Exact(num)
    ensures ReadOptional(num, WriteOptional(num, name, value, tail), name, value.Some?) == Good(value, tail)
  {
    hide ReadReal, WriteReal;
    if value.Some? {
      RealLine(num, name, value.value, tail);
    }
  }

  lemma ConvergenceRoundTrip<R(!new)>(num: Numerals<R>, s: State<R>, tail: seq<Line>)
    requires Exact(num)
    ensures ReadConvergence(num, WriteConvergence(num, s, tail))
         == Good((s.convergenceBest, s.convergenceStale, s.reason), tail)
  {
    hide ReadFlag, WriteFlag, ReadSize, WriteSize, ReadOptional, WriteOptional, Exact;
    var best := WriteOptional(num, "convergence_best_loss", s.convergenceBest, tail);
    var reason := WriteSize("convergence_reason", ReasonCode(s.reason), best);
    var stale := WriteSize("convergence_stale_epochs", s.convergenceStale, reason);
    FlagLine("convergence_has_best", s.convergenceBest.Some?, stale);
    SizeLine("convergence_stale_epochs", s.convergenceStale, reason);
    SizeLine("convergence_reason", ReasonCode(s.reason), best);
    OptionalLine(num, "convergence_best_loss", s.convergenceBest, tail);
  }

  function WriteSchedule<R>(num: Numerals<R>, s: State<R>, tail: seq<Line>): seq<Line> {
    WriteSize("optimizer_timestep", s.timestep,
      [["learning_rate_schedule", ScheduleName(s.schedule)]]
      + WriteSize("schedule_completed_epochs", s.completed,
          WriteReal(num, "schedule_current_rate", s.rate,
            WriteSize("schedule_next_transition", s.nextTransition,
              WriteFlag("schedule_has_best", s.best.Some?,
                WriteSize("schedule_stale_epochs", s.stale,
                  WriteOptional(num, "schedule_best_metric", s.best, tail)))))))
  }

  /** Timestep, completed epochs, rate, next transition, best, stale count. */
  function ReadSchedule<R>(num: Numerals<R>, lines: seq<Line>, expected: Schedule.ScheduleKind)
    : Parsed<(Word, Word, R, Word, Option<R>, Word)>
  {
    var timestep :- ReadSize(lines, "optimizer_timestep");
    var name :- Expect(timestep.1, 2, "learning_rate_schedule");
    if ScheduleFromName(name.0[1]) != Some(expected) then
      Bad
    else
      var completed :- ReadSize(name.1, "schedule_completed_epochs");
      var rate :- ReadReal(num, completed.1, "schedule_current_rate");
      var next :- ReadSize(rate.1, "schedule_next_transition");
      var hasBest :- ReadFlag(next.1, "schedule_has_best");
      var stale :- ReadSize(hasBest.1, "schedule_stale_epochs");
      var best :- ReadOptional(num, stale.1, "schedule_best_metric", hasBest.0);
      Good((timestep.0, completed.0, rate.0, next.0, best.0, stale.0), best.1)
  }

  lemma ScheduleRoundTrip<R(!new)>(num: Numerals<R>, s: State<R>, tail: seq<Line>)
    requires Exact(num)
    ensures ReadSchedule(num, WriteSchedule(num, s, tail), s.schedule)
         == Good((s.timestep, s.completed, s.rate, s.nextTransition, s.best, s.stale), tail)
  {
    hide ReadFlag, WriteFlag, ReadSize, WriteSize, ReadReal, WriteReal, ReadOptional, WriteOptional, Exact;
    hide ScheduleName, ScheduleFromName;
    var best := WriteOptional(num, "schedule_best_metric", s.best, tail);
    var stale := WriteSize("schedule_stale_epochs", s.stale, best);
    var hasBest := WriteFlag("schedule_has_best", s.best.Some?, stale);
    var next := WriteSize("schedule_next_transition", s.nextTransition, hasBest);
    var rate := WriteReal(num, "schedule_current_rate", s.rate, next);
    var completed := WriteSize("schedule_completed_epochs", s.completed, rate);
    var name := [["learning_rate_schedule", ScheduleName(s.schedule)]] + completed;
    SizeLine("optimizer_timestep", s.timestep, name);
    NamesRoundTrip(Schedule.Adam, s.schedule, TargetEpochs);
    assert name[1..] == completed;
    SizeLine("schedule_completed_epochs", s.completed, rate);
    RealLine(num, "schedule_current_rate", s.rate, next);
    SizeLine("schedule_next_transition", s.nextTransition, hasBest);
    FlagLine("schedule_has_best", s.best.Some?, stale);
    SizeLine("schedule_stale_epochs", s.stale, best);
    OptionalLine(num, "schedule_best_metric", s.best, tail);
  }

  function WriteState<R>(num: Numerals<R>, s: State<R>, tail: seq<Line>): seq<Line>
    requires BuffersFit(s.buffers)
  {
    WriteSchedule(num, s, WriteConvergence(num, s, WriteBuffers(num, s.buffers, tail)))
  }

  function ReadState<R>(num: Numerals<R>, lines: seq<Line>, kind: Schedule.Kind, expected: Schedule.ScheduleKind,
                        shape: seq<(nat, nat)>): Parsed<State<R>>
  {
    var schedule :- ReadSchedule(num, lines, expected);
    var convergence :- ReadConvergence(num, schedule.1);
    var buffers :- ReadBuffers(num, convergence.1, kind, shape);
    var (timestep, completed, rate, next, best, stale) := schedule.0;
    Good(State(timestep, expected, completed, rate, next, best, stale,
               convergence.0.0, convergence.0.1, convergence.0.2, buffers.0), buffers.1)
  }

  /** Optimizer state round-trips, whatever follows it. */
  lemma StateRoundTrip<R(!new)>(num: Numerals<R>, s: State<R>, shape: seq<(nat, nat)>, tail: seq<Line>)
    requires Exact(num) && BuffersFit(s.buffers) && Shaped(s.buffers, shape)
    ensures ReadState(num, WriteState(num, s, tail), KindOf(s.buffers), s.schedule, shape) == Good(s, tail)
  {
    hide ReadSchedule, WriteSchedule, ReadConvergence, WriteConvergence, ReadBuffers, WriteBuffers, Exact, Shaped;
    var buffers := WriteBuffers(num, s.buffers, tail);
    ScheduleRoundTrip(num, s, WriteConvergence(num, s, buffers));
    ConvergenceRoundTrip(num, s, buffers);
    BuffersRoundTrip(num, s.buffers, shape, tail);
  }

  /** The checks of the three restore functions. */
  predicate Restorable<R>(num: Numerals<R>, s: State<R>) {
    && num.positive(s.rate)
    && (s.best.None? ==> s.stale == 0)
    && (s.convergenceBest.None? ==> s.convergenceStale == 0)
    && (s.buffers.AdamBuffers? ==> num.unit(s.buffers.beta1Power) && num.unit(s.buffers.beta2Power))
  }

  // ---------- metadata ----------

  datatype Digests = Digests(model: string, dataset: string, training: string) {
    predicate Valid() {
      HexDigest(model) && HexDigest(dataset) && HexDigest(training)
    }
  }

  function WriteHeader(kind: string, version: Word, d: Digests, completed: Word, tail: seq<Line>): seq<Line> {
    [["neural-c", kind, Decimal(version)]]
    + WriteDigest("model_digest", d.model,
        WriteDigest("dataset_digest", d.dataset,
          WriteDigest("training_digest", d.training, WriteSize("completed_epochs", completed, tail))))
  }

  /** Version, digests and completed epochs. */
  function ReadHeader(lines: seq<Line>, kind: string): Parsed<(Word, Digests, Word)> {
    if lines == [] || |lines[0]| != 3 || lines[0][0] != "neural-c" || lines[0][1] != kind then
      Bad
    else
      match ParseSize(lines[0][2])
      case None => Bad
      case Some(version) =>
        if version != 1 && version != 2 && version != 3 then
          Bad
        else
          var model :- ReadDigest(lines[1..], "model_digest");
          var dataset :- ReadDigest(model.1, "dataset_digest");
          var training :- ReadDigest(dataset.1, "training_digest");
          var completed :- ReadSize(training.1, "completed_epochs");
          Good((version, Digests(model.0, dataset.0, training.0), completed.0), completed.1)
  }

  lemma HeaderRoundTrip(kind: string, version: Word, d: Digests, completed: Word, tail: seq<Line>)
    requires d.Valid() && 1 <= version <= 3
    ensures ReadHeader(WriteHeader(kind, version, d, completed, tail), kind) == Good((version, d, completed), tail)
  {
    hide ReadDigest, WriteDigest, ReadSize, WriteSize, HexDigest;
    var size := WriteSize("completed_epochs", completed, tail);
    var training := WriteDigest("training_digest", d.training, size);
    var dataset := WriteDigest("dataset_digest", d.dataset, training);
    var model := WriteDigest("model_digest", d.model, dataset);
    DecimalRoundTrip(version);
    assert WriteHeader(kind, version, d, completed, tail)[1..] == model;
    DigestLine("model_digest", d.model, dataset);
    DigestLine("dataset_digest", d.dataset, training);
    DigestLine("training_digest", d.training, size);
    SizeLine("completed_epochs", completed, tail);
  }

  datatype Boundary = Boundary(digests: Digests, completed: Word, target: Word, optimizer: Schedule.Kind, rng: Word) {
    /** What the savers and the loaders demand of every checkpoint. */
    predicate Valid() {
      digests.Valid() && target != 0 && completed <= target
    }
  }

  function WriteBoundary(b: Boundary, version: Word, tail: seq<Line>): seq<Line> {
    WriteHeader("checkpoint", version, b.digests, b.completed,
      WriteSize("target_epochs", b.target,
        [["optimizer", OptimizerName(b.optimizer)]] + WriteSize("rng_state", b.rng, tail)))
  }

  function ReadBoundary(lines: seq<Line>): Parsed<(Word, Boundary)> {
    var header :- ReadHeader(lines, "checkpoint");
    var target :- ReadSize(header.1, "target_epochs");
    var name :- Expect(target.1, 2, "optimizer");
    match OptimizerFromName(name.0[1])
    case None => Bad
    case Some(kind) =>
      var rng :- ReadSize(name.1, "rng_state");
      var (version, digests, completed) := header.0;
      var b := Boundary(digests, completed, target.0, kind, rng.0);
      if (version != 3 && kind != Schedule.GradientDescent) || !b.Valid() then Bad else Good((version, b), rng.1)
  }

  lemma BoundaryRoundTrip(b: Boundary, version: Word, tail: seq<Line>)
    requires b.Valid() && 1 <= version <= 3 && (version != 3 ==> b.optimizer == Schedule.GradientDescent)
    ensures ReadBoundary(WriteBoundary(b, version, tail)) == Good((version, b), tail)
  {
    hide ReadHeader, WriteHeader, ReadSize, WriteSize, HexDigest, OptimizerName, OptimizerFromName;
    var rng := WriteSize("rng_state", b.rng, tail);
    var name := [["optimizer", OptimizerName(b.optimizer)]] + rng;
    var target := WriteSize("target_epochs", b.target, name);
    HeaderRoundTrip("checkpoint", version, b.digests, b.completed, target);
    SizeLine("target_epochs", b.target, name);
    NamesRoundTrip(b.optimizer, Schedule.Step, TargetEpochs);
    assert name[1..] == rng;
    SizeLine("rng_state", b.rng, tail);
  }

  // ---------- whole files ----------

  datatype Checkpoint<R> = Checkpoint(boundary: Boundary, state: Option<State<R>>, model: seq<Layer<R>>)

  datatype EarlyCheckpoint<R> = EarlyCheckpoint(
    boundary: Boundary, bestEpoch: Word, bestLoss: R, stale: Word, state: Option<State<R>>,
    current: seq<Layer<R>>, best: seq<Layer<R>>)

  datatype WeightsFile<R> = WeightsFile(
    digests: Digests, completed: Word, selected: Word, target: Word, reason: Completion, version: Word,
    model: seq<Layer<R>>)

  /** The optimizer that a loader restores into. */
  datatype Slot = Slot(kind: Schedule.Kind, schedule: Schedule.ScheduleKind, requiresState: bool)

  datatype Runtime = Runtime(shape: seq<(nat, nat)>, slot: Option<Slot>, expected: Digests)

  /** A checkpoint's state is what its optimizer needs: present exactly when
      required, of the right kind and shape. */
  ghost predicate StateFits<R>(state: Option<State<R>>, kind: Schedule.Kind, rt: Runtime) {
    && rt.slot.Some? && rt.slot.value.kind == kind
    && (state.Some? <==> rt.slot.value.requiresState)
    && (kind != Schedule.GradientDescent ==> state.Some?)
    && (state.Some? ==>
          && KindOf(state.value.buffers) == kind && state.value.schedule == rt.slot.value.schedule
          && BuffersFit(state.value.buffers) && Shaped(state.value.buffers, rt.shape))
  }

  function WriteModelAndEnd<R>(num: Numerals<R>, model: seq<Layer<R>>): seq<Line>
    requires |model| <= MODULUS
  {
    WriteLayers(num, model, 0, [])
  }

  function ReadModelAndEnd<R>(num: Numerals<R>, lines: seq<Line>, shape: seq<(nat, nat)>): Option<seq<Layer<R>>> {
    match ReadLayers(num, lines, shape, 0)
    case Bad => None
    case Good(model, rest) => if rest == [] then Some(model) else None
  }

  function WriteCheckpoint<R>(num: Numerals<R>, c: Checkpoint<R>): seq<Line>
    requires |c.model| <= MODULUS && (c.state.Some? ==> BuffersFit(c.state.value.buffers))
  {
    match c.state
    case None => WriteBoundary(c.boundary, 1, WriteModelAndEnd(num, c.model))
    case Some(state) =>
      WriteBoundary(c.boundary, 3, WriteState(num, state, [["model"]] + WriteModelAndEnd(num, c.model)))
  }

  function LoadCheckpoint<R>(num: Numerals<R>, lines: seq<Line>, rt: Runtime): Option<Checkpoint<R>> {
    match ReadBoundary(lines)
    case Bad => None
    case Good((version, b), rest) =>
      if version == 2 || b.digests != rt.expected then
        None
      else if version == 3 then
        if rt.slot.None? || rt.slot.value.kind != b.optimizer then
          None
        else
          match ReadState(num, rest, b.optimizer, rt.slot.value.schedule, rt.shape)
          case Bad => None
          case Good(state, afterState) =>
            match Expect(afterState, 1, "model")
            case Bad => None
            case Good(_, afterLine) =>
              match ReadModelAndEnd(num, afterLine, rt.shape)
              case None => None
              case Some(model) =>
                if Restorable(num, state) then Some(Checkpoint(b, Some(state), model)) else None
      else if rt.slot.Some? && rt.slot.value.requiresState then
        None
      else
        match ReadModelAndEnd(num, rest, rt.shape)
        case None => None
        case Some(model) => Some(Checkpoint(b, None, model))
  }

  lemma ModelRoundTrip<R(!new)>(num: Numerals<R>, model: seq<Layer<R>>)
    requires Exact(num) && |model| <= MODULUS
    ensures ReadModelAndEnd(num, WriteModelAndEnd(num, model), ShapeOf(model)) == Some(model)
  {
    LayersRoundTrip(num, model, 0, []);
  }

  /** An ordinary checkpoint loads as what was saved, exactly when the restore
      functions accept its optimizer state. */
  lemma CheckpointRoundTrip<R(!new)>(num: Numerals<R>, c: Checkpoint<R>, rt: Runtime)
    requires Exact(num) && c.boundary.Valid() && c.boundary.digests == rt.expected
    requires |c.model| <= MODULUS && ShapeOf(c.model) == rt.shape && StateFits(c.state, c.boundary.optimizer, rt)
    ensures LoadCheckpoint(num, WriteCheckpoint(num, c), rt)
         == if c.state.Some? && !Restorable(num, c.state.value) then None else Some(c)
  {
    hide ReadBoundary, WriteBoundary, ReadState, WriteState, ReadModelAndEnd, WriteModelAndEnd, Exact, Restorable;
    var model := WriteModelAndEnd(num, c.model);
    ModelRoundTrip(num, c.model);
    match c.state {
      case None =>
        BoundaryRoundTrip(c.boundary, 1, model);
      case Some(state) =>
        var tail := [["model"]] + model;
        BoundaryRoundTrip(c.boundary, 3, WriteState(num, state, tail));
        StateRoundTrip(num, state, rt.shape, tail);
        assert tail[1..] == model;
    }
  }

  function WriteEarlyLines<R>(num: Numerals<R>, e: EarlyCheckpoint<R>, tail: seq<Line>): seq<Line> {
    WriteSize("best_epoch", e.bestEpoch,
      WriteReal(num, "best_loss", e.bestLoss, WriteSize("stale_epochs", e.stale, tail)))
  }

  function ReadEarlyLines<R>(num: Numerals<R>, lines: seq<Line>): Parsed<(Word, R, Word)> {
    var epoch :- ReadSize(lines, "best_epoch");
    var loss :- ReadReal(num, epoch.1, "best_loss");
    var stale :- ReadSize(loss.1, "stale_epochs");
    Good((epoch.0, loss.0, stale.0), stale.1)
  }

  function WriteModels<R>(num: Numerals<R>, e: EarlyCheckpoint<R>): seq<Line>
    requires |e.current| <= MODULUS && |e.best| <= MODULUS
  {
    [["current_model"]] + WriteLayers(num, e.current, 0, [["best_model"]] + WriteModelAndEnd(num, e.best))
  }

  function ReadModels<R>(num: Numerals<R>, lines: seq<Line>, shape: seq<(nat, nat)>)
    : Option<(seq<Layer<R>>, seq<Layer<R>>)>
  {
    match Expect(lines, 1, "current_model")
    case Bad => None
    case Good(_, first) =>
      match ReadLayers(num, first, shape, 0)
      case Bad => None
      case Good(current, second) =>
        match Expect(second, 1, "best_model")
        case Bad => None
        case Good(_, third) =>
          match ReadModelAndEnd(num, third, shape)
          case None => None
          case Some(best) => Some((current, best))
  }

  function WriteEarly<R>(num: Numerals<R>, e: EarlyCheckpoint<R>): seq<Line>
    requires |e.current| <= MODULUS && |e.best| <= MODULUS && (e.state.Some? ==> BuffersFit(e.state.value.buffers))
  {
    match e.state
    case None => WriteBoundary(e.boundary, 2, WriteEarlyLines(num, e, WriteModels(num, e)))
    case Some(state) =>
      WriteBoundary(e.boundary, 3, WriteEarlyLines(num, e, WriteState(num, state, WriteModels(num, e))))
  }

  function LoadEarly<R>(num: Numerals<R>, lines: seq<Line>, rt: Runtime): Option<EarlyCheckpoint<R>> {
    match ReadBoundary(lines)
    case Bad => None
    case Good((version, b), rest) =>
      if version == 1 then
        None
      else
        match ReadEarlyLines(num, rest)
        case Bad => None
        case Good((bestEpoch, bestLoss, stale), afterLines) =>
          if b.digests != rt.expected then
            None
          else if version == 3 then
            if rt.slot.None? || rt.slot.value.kind != b.optimizer then
              None
            else
              match ReadState(num, afterLines, b.optimizer, rt.slot.value.schedule, rt.shape)
              case Bad => None
              case Good(state, afterState) =>
                match ReadModels(num, afterState, rt.shape)
                case None => None
                case Some((current, best)) =>
                  if bestEpoch > b.completed || stale > b.completed || !Restorable(num, state) then None
                  else Some(EarlyCheckpoint(b, bestEpoch, bestLoss, stale, Some(state), current, best))
          else if rt.slot.Some? && rt.slot.value.requiresState then
            None
          else
            match ReadModels(num, afterLines, rt.shape)
            case None => None
            case Some((current, best)) =>
              if bestEpoch > b.completed || stale > b.completed then None
              else Some(EarlyCheckpoint(b, bestEpoch, bestLoss, stale, None, current, best))
  }

  lemma EarlyLinesRoundTrip<R(!new)>(num: Numerals<R>, e: EarlyCheckpoint<R>, tail: seq<Line>)
    requires Exact(num)
    ensures ReadEarlyLines(num, WriteEarlyLines(num, e, tail)) == Good((e.bestEpoch, e.bestLoss, e.stale), tail)
  {
    hide ReadSize, WriteSize, ReadReal, WriteReal, Exact;
    var stale := WriteSize("stale_epochs", e.stale, tail);
    var loss := WriteReal(num, "best_loss", e.bestLoss, stale);
    SizeLine("best_epoch", e.bestEpoch, loss);
    RealLine(num, "best_loss", e.bestLoss, stale);
    SizeLine("stale_epochs", e.stale, tail);
  }

  lemma ModelsRoundTrip<R(!new)>(num: Numerals<R>, e: EarlyCheckpoint<R>, shape: seq<(nat, nat)>)
    requires Exact(num) && |e.current| <= MODULUS && |e.best| <= MODULUS
    requires ShapeOf(e.current) == shape && ShapeOf(e.best) == shape
    ensures ReadModels(num, WriteModels(num, e), shape) == Some((e.current, e.best))
  {
    hide ReadLayers, WriteLayers, ReadModelAndEnd, WriteModelAndEnd, Exact;
    var second := [["best_model"]] + WriteModelAndEnd(num, e.best);
    var first := WriteLayers(num, e.current, 0, second);
    assert WriteModels(num, e)[1..] == first && second[1..] == WriteModelAndEnd(num, e.best);
    LayersRoundTrip(num, e.current, 0, second);
    ModelRoundTrip(num, e.best);
  }

  /** An early-stopping checkpoint that its saver accepts round-trips likewise. */
  lemma EarlyRoundTrip<R(!new)>(num: Numerals<R>, e: EarlyCheckpoint<R>, rt: Runtime)
    requires Exact(num) && e.boundary.Valid() && e.boundary.digests == rt.expected
    requires 0 < e.bestEpoch <= e.boundary.completed && e.stale <= e.boundary.completed
    requires |e.current| <= MODULUS && |e.best| <= MODULUS
    requires ShapeOf(e.current) == rt.shape && ShapeOf(e.best) == rt.shape
    requires StateFits(e.state, e.boundary.optimizer, rt)
    ensures LoadEarly(num, WriteEarly(num, e), rt)
         == if e.state.Some? && !Restorable(num, e.state.value) then None else Some(e)
  {
    hide ReadBoundary, WriteBoundary, ReadState, WriteState, ReadModels, WriteModels, Exact, Restorable;
    hide ReadEarlyLines, WriteEarlyLines;
    var models := WriteModels(num, e);
    ModelsRoundTrip(num, e, rt.shape);
    match e.state {
      case None =>
        BoundaryRoundTrip(e.boundary, 2, WriteEarlyLines(num, e, models));
        EarlyLinesRoundTrip(num, e, models);
      case Some(state) =>
        var tail := WriteState(num, state, models);
        BoundaryRoundTrip(e.boundary, 3, WriteEarlyLines(num, e, tail));
        EarlyLinesRoundTrip(num, e, tail);
        StateRoundTrip(num, state, rt.shape, models);
    }
  }

  /** No text at all loads as a checkpoint of both formats. */
  lemma NoTextLoadsAsBoth<R>(num: Numerals<R>, lines: seq<Line>, rt: Runtime, rs: Runtime)
    ensures LoadCheckpoint(num, lines, rt).None? || LoadEarly(num, lines, rs).None?
  {
    hide ReadBoundary, ReadModelAndEnd, ReadModels, Restorable, ReadState, ReadEarlyLines;
    DifferentNames();
    match ReadBoundary(lines) {
      case Bad =>
      case Good((version, b), rest) =>
        BoundaryVersion(lines);
        EarlyStart(num, rest);
        if rt.slot.Some? {
          StateStart(num, rest, b.optimizer, rt.slot.value.schedule, rt.shape);
        }
    }
  }

  lemma BoundaryVersion(lines: seq<Line>)
    ensures ReadBoundary(lines).Good? ==> 1 <= ReadBoundary(lines).value.0 <= 3
  {
    hide ReadDigest, ReadSize;
  }

  predicate StartsWith(lines: seq<Line>, name: string) {
    lines != [] && lines[0] != [] && lines[0][0] == name
  }

  lemma StateStart<R>(num: Numerals<R>, lines: seq<Line>, kind: Schedule.Kind, expected: Schedule.ScheduleKind,
                      shape: seq<(nat, nat)>)
    ensures ReadState(num, lines, kind, expected, shape).Good? ==> StartsWith(lines, "optimizer_timestep")
  {
    hide ReadConvergence, ReadBuffers;
    assert ReadSchedule(num, lines, expected).Good? ==> ReadSize(lines, "optimizer_timestep").Good?;
  }

  lemma EarlyStart<R>(num: Numerals<R>, lines: seq<Line>)
    ensures ReadEarlyLines(num, lines).Good? ==> StartsWith(lines, "best_epoch")
  {
    assert ReadEarlyLines(num, lines).Good? ==> ReadSize(lines, "best_epoch").Good?;
  }

  lemma WrongFirstLine(lines: seq<Line>, name: string, wanted: string, value: string, count: nat)
    requires lines != [] && lines[0] == [name, value] && name != wanted && count > 0
    ensures Expect(lines, count, wanted) == Bad
  {
  }

  /** The loaders never confuse the two checkpoint formats, although both use
      version 3: what one saver writes, the other loader rejects. */
  lemma FormatsAreNotConfused<R(!new)>(num: Numerals<R>, c: Checkpoint<R>, e: EarlyCheckpoint<R>, rt: Runtime)
    requires c.boundary.Valid() && |c.model| <= MODULUS
    requires c.state.Some? ==> BuffersFit(c.state.value.buffers)
    requires c.boundary.optimizer != Schedule.GradientDescent ==> c.state.Some?
    requires e.boundary.Valid() && |e.current| <= MODULUS && |e.best| <= MODULUS
    requires e.state.Some? ==> BuffersFit(e.state.value.buffers)
    requires e.boundary.optimizer != Schedule.GradientDescent ==> e.state.Some?
    ensures LoadEarly(num, WriteCheckpoint(num, c), rt) == None
    ensures LoadCheckpoint(num, WriteEarly(num, e), rt) == None
  {
    OrdinaryIsNotEarly(num, c, rt);
    EarlyIsNotOrdinary(num, e, rt);
  }

  lemma OrdinaryIsNotEarly<R(!new)>(num: Numerals<R>, c: Checkpoint<R>, rt: Runtime)
    requires c.boundary.Valid() && |c.model| <= MODULUS
    requires c.state.Some? ==> BuffersFit(c.state.value.buffers)
    requires c.boundary.optimizer != Schedule.GradientDescent ==> c.state.Some?
    ensures LoadEarly(num, WriteCheckpoint(num, c), rt) == None
  {
    hide ReadBoundary, WriteBoundary, WriteConvergence, WriteBuffers, WriteModelAndEnd;
    var model := WriteModelAndEnd(num, c.model);
    match c.state {
      case None =>
        BoundaryRoundTrip(c.boundary, 1, model);
      case Some(state) =>
        var rest := WriteState(num, state, [["model"]] + model);
        BoundaryRoundTrip(c.boundary, 3, rest);
        assert rest[0] == ["optimizer_timestep", Decimal(state.timestep)];
        DifferentNames();
        WrongFirstLine(rest, "optimizer_timestep", "best_epoch", Decimal(state.timestep), 2);
        assert ReadEarlyLines(num, rest) == Bad;
    }
  }

  lemma DifferentNames()
    ensures "optimizer_timestep" != "best_epoch"
  {
    assert |"optimizer_timestep"| == 18 && |"best_epoch"| == 10;
  }

  lemma EarlyIsNotOrdinary<R(!new)>(num: Numerals<R>, e: EarlyCheckpoint<R>, rt: Runtime)
    requires e.boundary.Valid() && |e.current| <= MODULUS && |e.best| <= MODULUS
    requires e.state.Some? ==> BuffersFit(e.state.value.buffers)
    requires e.boundary.optimizer != Schedule.GradientDescent ==> e.state.Some?
    ensures LoadCheckpoint(num, WriteEarly(num, e), rt) == None
  {
    hide ReadBoundary, WriteBoundary, WriteConvergence, WriteBuffers, WriteModels, WriteSchedule, ReadModelAndEnd;
    match e.state {
      case None =>
        BoundaryRoundTrip(e.boundary, 2, WriteEarlyLines(num, e, WriteModels(num, e)));
      case Some(state) =>
        var rest := WriteEarlyLines(num, e, WriteState(num, state, WriteModels(num, e)));
        BoundaryRoundTrip(e.boundary, 3, rest);
        assert rest[0] == ["best_epoch", Decimal(e.bestEpoch)];
        DifferentNames();
        WrongFirstLine(rest, "best_epoch", "optimizer_timestep", Decimal(e.bestEpoch), 2);
        if rt.slot.Some? {
          assert ReadSchedule(num, rest, rt.slot.value.schedule) == Bad;
          assert ReadState(num, rest, e.boundary.optimizer, rt.slot.value.schedule, rt.shape) == Bad;
        }
    }
  }

  // ---------- weights ----------

  /** The epoch relations of a version 2 file; version 1 implies all of them. */
  predicate WeightsValid<R>(w: WeightsFile<R>) {
    && w.digests.Valid()
    && (w.version == 1 ==> w.selected == w.completed == w.target && w.reason == TargetEpochs)
    && (w.version == 2 ==> SaverAccepts(w.completed, w.selected, w.target, w.reason))
    && (w.version == 1 || w.version == 2)
  }

  function WriteWeights<R>(num: Numerals<R>, w: WeightsFile<R>): seq<Line>
    requires |w.model| <= MODULUS
  {
    WriteHeader("weights", w.version, w.digests, w.completed,
      if w.version == 1 then
        WriteModelAndEnd(num, w.model)
      else
        WriteSize("selected_epoch", w.selected,
          WriteSize("target_epochs", w.target,
            [["completion", CompletionName(w.reason)]] + WriteModelAndEnd(num, w.model))))
  }

  function ReadSelection(lines: seq<Line>): Parsed<(Word, Word, Completion)> {
    var selected :- ReadSize(lines, "selected_epoch");
    var target :- ReadSize(selected.1, "target_epochs");
    var name :- Expect(target.1, 2, "completion");
    match CompletionFromName(name.0[1])
    case None => Bad
    case Some(reason) => Good((selected.0, target.0, reason), name.1)
  }

  function LoadWeights<R>(num: Numerals<R>, lines: seq<Line>, rt: Runtime): Option<WeightsFile<R>> {
    match ReadHeader(lines, "weights")
    case Bad => None
    case Good((version, digests, completed), rest) =>
      if version == 3 || digests != rt.expected then
        None
      else if version == 2 then
        match ReadSelection(rest)
        case Bad => None
        case Good((selected, target, reason), afterLines) =>
          if target == 0 || selected == 0 || selected > completed || completed > target
             || (reason == TargetEpochs && completed != target) || (reason != TargetEpochs && completed >= target) then
            None
          else
            match ReadModelAndEnd(num, afterLines, rt.shape)
            case None => None
            case Some(model) => Some(WeightsFile(digests, completed, selected, target, reason, 2, model))
      else
        match ReadModelAndEnd(num, rest, rt.shape)
        case None => None
        case Some(model) => Some(WeightsFile(digests, completed, completed, completed, TargetEpochs, 1, model))
  }

  lemma SelectionRoundTrip(selected: Word, target: Word, reason: Completion, tail: seq<Line>)
    ensures ReadSelection(WriteSize("selected_epoch", selected,
              WriteSize("target_epochs", target, [["completion", CompletionName(reason)]] + tail)))
         == Good((selected, target, reason), tail)
  {
    hide ReadSize, WriteSize, CompletionName, CompletionFromName;
    var name := [["completion", CompletionName(reason)]] + tail;
    SizeLine("selected_epoch", selected, WriteSize("target_epochs", target, name));
    SizeLine("target_epochs", target, name);
    NamesRoundTrip(Schedule.Adam, Schedule.Step, reason);
    assert name[1..] == tail;
  }

  /** Weights round-trip in both versions; in particular the loader accepts
      whatever the savers accept. */
  lemma WeightsRoundTrip<R(!new)>(num: Numerals<R>, w: WeightsFile<R>, rt: Runtime)
    requires Exact(num) && WeightsValid(w) && w.digests == rt.expected
    requires |w.model| <= MODULUS && ShapeOf(w.model) == rt.shape
    ensures LoadWeights(num, WriteWeights(num, w), rt) == Some(w)
  {
    hide ReadHeader, WriteHeader, WriteSize, ReadModelAndEnd, WriteModelAndEnd, Exact, ReadSelection, HexDigest;
    var model := WriteModelAndEnd(num, w.model);
    ModelRoundTrip(num, w.model);
    if w.version == 1 {
      HeaderRoundTrip("weights", 1, w.digests, w.completed, model);
    } else {
      var name := [["completion", CompletionName(w.reason)]] + model;
      var selection := WriteSize("selected_epoch", w.selected, WriteSize("target_epochs", w.target, name));
      HeaderRoundTrip("weights", 2, w.digests, w.completed, selection);
      SelectionRoundTrip(w.selected, w.target, w.reason, model);
    }
  }
}
