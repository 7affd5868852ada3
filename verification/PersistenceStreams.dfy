/** The persistence code as it runs: a cursor that reads a file line by line, and
    a stream that writes one. */
module PersistenceStreams {
  import opened Options
  import opened Words
  import opened Persistence
  import Schedule
  import opened Layers
  import opened Training

  ghost predicate Returns<T>(result: Option<T>, parsed: Parsed<T>, rest: seq<Line>) {
    match parsed
    case Bad => result == None
    case Good(value, after) => result == Some(value) && rest == after
  }

  ghost function InFront<T>(front: seq<T>, parsed: Parsed<seq<T>>): Parsed<seq<T>> {
    match parsed
    case Bad => Bad
    case Good(values, rest) => Good(front + values, rest)
  }

  lemma InFrontOfNothing<T>(parsed: Parsed<seq<T>>)
    ensures InFront([], parsed) == parsed
  {
    if parsed.Good? {
      assert [] + parsed.value == parsed.value;
    }
  }

  lemma InFrontOfBad<T>(front: seq<T>)
    ensures InFront(front, Bad) == Bad
  {
  }

  /** One value of a list, or the reason why there is none. */
  lemma OneValue<R>(num: Numerals<R>, lines: seq<Line>, count: nat)
    requires count > 0
    ensures if lines == [] || |lines[0]| != 1 || num.parse(lines[0][0]).None?
            then ReadValues(num, lines, count) == Bad
            else ReadValues(num, lines, count)
                 == InFront([num.parse(lines[0][0]).value], ReadValues(num, lines[1..], count - 1))
  {
  }

  lemma NoValues<R>(num: Numerals<R>, lines: seq<Line>)
    ensures ReadValues(num, lines, 0) == Good([], lines)
  {
  }

  lemma NothingAfter<T>(front: seq<T>, rest: seq<Line>)
    ensures InFront(front, Good([], rest)) == Good(front, rest)
  {
    assert front + [] == front;
  }

  lemma InFrontTwice<T>(front: seq<T>, value: T, parsed: Parsed<seq<T>>)
    ensures InFront(front, InFront([value], parsed)) == InFront(front + [value], parsed)
  {
    if parsed.Good? {
      assert front + ([value] + parsed.value) == front + [value] + parsed.value;
    }
  }

  // ---------- the reader ----------

  /** A cursor over the lines of a file. After a failed call it rests anywhere. */
  class Reader<R> {
    const num: Numerals<R>
    const lines: seq<Line>
    var position: nat

    constructor (num: Numerals<R>, lines: seq<Line>)
      ensures this.num == num && this.lines == lines && position == 0
    {
      this.num, this.lines, position := num, lines, 0;
    }

    function Rest(): seq<Line>
      reads this
    {
      if position <= |lines| then lines[position..] else []
    }

    method Require(count: nat, first: string) returns (line: Option<Line>)
      requires count > 0
      modifies this
      ensures Returns(line, Expect(old(Rest()), count, first), Rest())
      ensures line.Some? ==> |line.value| == count
    {
      if position >= |lines| {
        return None;
      }
      var tokens := lines[position];
      position := position + 1;
      if |tokens| != count || tokens[0] != first {
        return None;
      }
      line := Some(tokens);
    }

    method Size(name: string) returns (value: Option<Word>)
      modifies this
      ensures Returns(value, ReadSize(old(Rest()), name), Rest())
    {
      var line := Require(2, name);
      if line.None? {
        return None;
      }
      value := ParseSize(line.value[1]);
    }

    method Real(name: string) returns (value: Option<R>)
      modifies this
      ensures Returns(value, ReadReal(num, old(Rest()), name), Rest())
    {
      var line := Require(2, name);
      if line.None? {
        return None;
      }
      value := num.parse(line.value[1]);
    }

    method Flag(name: string) returns (value: Option<bool>)
      modifies this
      ensures Returns(value, ReadFlag(old(Rest()), name), Rest())
    {
      var line := Require(2, name);
      if line.None? {
        return None;
      }
      value := if line.value[1] == "0" then Some(false) else if line.value[1] == "1" then Some(true) else None;
    }

    method Values(count: nat) returns (values: Option<seq<R>>)
      modifies this
      ensures Returns(values, ReadValues(num, old(Rest()), count), Rest())
    {
      hide ReadValues, InFront;
      var staged := new R[count](i => num.zero);
      ghost var start := Rest();
      InFrontOfNothing(ReadValues(num, Rest(), count));
      assert staged[..0] == [];
      for i := 0 to count
        invariant InFront(staged[..i], ReadValues(num, Rest(), count - i)) == ReadValues(num, start, count)
      {
        OneValue(num, Rest(), count - i);
        InFrontOfBad(staged[..i]);
        if position >= |lines| {
          return None;
        }
        var tokens := lines[position];
        if |tokens| != 1 {
          return None;
        }
        var parsed := num.parse(tokens[0]);
        if parsed.None? {
          return None;
        }
        InFrontTwice(staged[..i], parsed.value, ReadValues(num, Rest()[1..], count - i - 1));
        staged[i] := parsed.value;
        position := position + 1;
        assert staged[..i + 1] == staged[..i] + [parsed.value];
      }
      values := Some(staged[..]);
      assert staged[..] == staged[..count];
      NoValues(num, Rest());
      NothingAfter(staged[..], Rest());
    }

    method OneLayer(shape: (nat, nat), index: nat) returns (layer: Option<Layer<R>>)
      modifies this
      ensures Returns(layer, ReadLayer(num, old(Rest()), shape, index), Rest())
    {
      hide ReadSize, ReadValues, Expect;
      var parsed := Size("layer");
      if parsed.None? || parsed.value != index {
        return None;
      }
      var line := Require(1, "weights");
      if line.None? {
        return None;
      }
      var weights := Values(shape.0);
      if weights.None? {
        return None;
      }
      line := Require(1, "biases");
      if line.None? {
        return None;
      }
      var biases := Values(shape.1);
      if biases.None? {
        return None;
      }
      line := Require(1, "end_layer");
      if line.None? {
        return None;
      }
      layer := Some(Layer(weights.value, biases.value));
    }

    method Layers(shape: seq<(nat, nat)>) returns (layers: Option<seq<Layer<R>>>)
      modifies this
      ensures Returns(layers, ReadLayers(num, old(Rest()), shape, 0), Rest())
    {
      hide ReadLayer, Expect;
      var staged: seq<Layer<R>> := [];
      assert shape[0..] == shape;
      InFrontOfNothing(ReadLayers(num, Rest(), shape, 0));
      for i := 0 to |shape|
        invariant InFront(staged, ReadLayers(num, Rest(), shape[i..], i)) == ReadLayers(num, old(Rest()), shape, 0)
      {
        assert shape[i..][0] == shape[i] && shape[i..][1..] == shape[i + 1..];
        ghost var before := Rest();
        var layer := OneLayer(shape[i], i);
        if layer.None? {
          return None;
        }
        InFrontTwice(staged, layer.value, ReadLayers(num, Rest(), shape[i + 1..], i + 1));
        staged := staged + [layer.value];
      }
      var line := Require(1, "end");
      if line.None? {
        return None;
      }
      NothingAfter(staged, Rest());
      layers := Some(staged);
    }

    method Digest(name: string) returns (digest: Option<string>)
      modifies this
      ensures Returns(digest, ReadDigest(old(Rest()), name), Rest())
    {
      var line := Require(2, name);
      if line.None? {
        return None;
      }
      var encoded := line.value[1];
      digest := if |encoded| >= 7 && encoded[..7] == PREFIX && HexDigest(encoded[7..])
          then Some(encoded[7..]) else None;
    }

    method Optional(name: string, present: bool) returns (value: Option<Option<R>>)
      modifies this
      ensures Returns(value, ReadOptional(num, old(Rest()), name, present), Rest())
    {
      if !present {
        return Some(None);
      }
      var read := Real(name);
      value := if read.None? then None else Some(read);
    }

    method ScheduleLines(expected: Schedule.ScheduleKind)
      returns (values: Option<(Word, Word, R, Word, Option<R>, Word)>)
      modifies this
      ensures Returns(values, ReadSchedule(num, old(Rest()), expected), Rest())
    {
      hide ReadSize, ReadReal, ReadFlag, ReadOptional, Expect;
      var timestep := Size("optimizer_timestep");
      if timestep.None? { return None; }
      var name := Require(2, "learning_rate_schedule");
      if name.None? || ScheduleFromName(name.value[1]) != Some(expected) { return None; }
      var completed := Size("schedule_completed_epochs");
      if completed.None? { return None; }
      var rate := Real("schedule_current_rate");
      if rate.None? { return None; }
      var next := Size("schedule_next_transition");
      if next.None? { return None; }
      var hasBest := Flag("schedule_has_best");
      if hasBest.None? { return None; }
      var stale := Size("schedule_stale_epochs");
      if stale.None? { return None; }
      var best := Optional("schedule_best_metric", hasBest.value);
      if best.None? { return None; }
      values := Some((timestep.value, completed.value, rate.value, next.value, best.value, stale.value));
    }

    method ConvergenceLines() returns (values: Option<(Option<R>, Word, Schedule.Reason)>)
      modifies this
      ensures Returns(values, ReadConvergence(num, old(Rest())), Rest())
    {
      hide ReadSize, ReadFlag, ReadOptional;
      var hasBest := Flag("convergence_has_best");
      if hasBest.None? { return None; }
      var stale := Size("convergence_stale_epochs");
      if stale.None? { return None; }
      var code := Size("convergence_reason");
      if code.None? || ReasonFromCode(code.value).None? { return None; }
      var best := Optional("convergence_best_loss", hasBest.value);
      if best.None? { return None; }
      values := Some((best.value, stale.value, ReasonFromCode(code.value).value));
    }

    method BufferLines(kind: Schedule.Kind, shape: seq<(nat, nat)>) returns (buffers: Option<Buffers<R>>)
      modifies this
      ensures Returns(buffers, ReadBuffers(num, old(Rest()), kind, shape), Rest())
    {
      hide ReadReal, ReadLayers, Expect;
      if kind == Schedule.GradientDescent {
        return Some(NoBuffers);
      }
      var beta1: Option<R>, beta2: Option<R> := None, None;
      if kind == Schedule.Adam {
        beta1 := Real("optimizer_beta1_power");
        if beta1.None? { return None; }
        beta2 := Real("optimizer_beta2_power");
        if beta2.None? { return None; }
      }
      var line := Require(1, "optimizer_state1");
      if line.None? { return None; }
      var first := Layers(shape);
      if first.None? { return None; }
      if kind == Schedule.Momentum {
        return Some(MomentumBuffers(first.value));
      }
      line := Require(1, "optimizer_state2");
      if line.None? { return None; }
      var second := Layers(shape);
      if second.None? { return None; }
      buffers := Some(AdamBuffers(beta1.value, beta2.value, first.value, second.value));
    }

    method StateLines(kind: Schedule.Kind, expected: Schedule.ScheduleKind, shape: seq<(nat, nat)>)
      returns (state: Option<State<R>>)
      modifies this
      ensures Returns(state, ReadState(num, old(Rest()), kind, expected, shape), Rest())
    {
      hide ReadSchedule, ReadConvergence, ReadBuffers;
      var schedule := ScheduleLines(expected);
      if schedule.None? { return None; }
      var convergence := ConvergenceLines();
      if convergence.None? { return None; }
      var buffers := BufferLines(kind, shape);
      if buffers.None? { return None; }
      var (timestep, completed, rate, next, best, stale) := schedule.value;
      state := Some(State(timestep, expected, completed, rate, next, best, stale,
                          convergence.value.0, convergence.value.1, convergence.value.2, buffers.value));
    }

    method HeaderLines(kind: string) returns (header: Option<(Word, Digests, Word)>)
      modifies this
      ensures Returns(header, ReadHeader(old(Rest()), kind), Rest())
    {
      hide ReadDigest, ReadSize;
      if position >= |lines| { return None; }
      var tokens := lines[position];
      position := position + 1;
      if |tokens| != 3 || tokens[0] != "neural-c" || tokens[1] != kind { return None; }
      var version := ParseSize(tokens[2]);
      if version.None? || version.value !in {1, 2, 3} { return None; }
      var model := Digest("model_digest");
      if model.None? { return None; }
      var dataset := Digest("dataset_digest");
      if dataset.None? { return None; }
      var training := Digest("training_digest");
      if training.None? { return None; }
      var completed := Size("completed_epochs");
      if completed.None? { return None; }
      header := Some((version.value, Digests(model.value, dataset.value, training.value), completed.value));
    }

    method BoundaryLines() returns (boundary: Option<(Word, Boundary)>)
      modifies this
      ensures Returns(boundary, ReadBoundary(old(Rest())), Rest())
    {
      hide ReadHeader, ReadSize, Expect, HexDigest;
      var header := HeaderLines("checkpoint");
      if header.None? { return None; }
      var target := Size("target_epochs");
      if target.None? { return None; }
      var name := Require(2, "optimizer");
      if name.None? || OptimizerFromName(name.value[1]).None? { return None; }
      var rng := Size("rng_state");
      if rng.None? { return None; }
      var (version, digests, completed) := header.value;
      var kind := OptimizerFromName(name.value[1]).value;
      var b := Boundary(digests, completed, target.value, kind, rng.value);
      if (version != 3 && kind != Schedule.GradientDescent) || !b.Valid() { return None; }
      boundary := Some((version, b));
    }

    method ModelAndEnd(shape: seq<(nat, nat)>) returns (model: Option<seq<Layer<R>>>)
      modifies this
      ensures model == ReadModelAndEnd(num, old(Rest()), shape)
    {
      hide ReadLayers;
      model := Layers(shape);
      if model.Some? && position < |lines| {
        model := None;
      }
    }

    method Models(shape: seq<(nat, nat)>) returns (models: Option<(seq<Layer<R>>, seq<Layer<R>>)>)
      modifies this
      ensures models == ReadModels(num, old(Rest()), shape)
    {
      hide ReadLayers, Expect, ReadModelAndEnd;
      var line := Require(1, "current_model");
      if line.None? { return None; }
      var current := Layers(shape);
      if current.None? { return None; }
      line := Require(1, "best_model");
      if line.None? { return None; }
      var best := ModelAndEnd(shape);
      if best.None? { return None; }
      models := Some((current.value, best.value));
    }
  }

  method ReadCheckpointFile<R>(num: Numerals<R>, lines: seq<Line>, rt: Runtime)
    returns (checkpoint: Option<Checkpoint<R>>)
    ensures checkpoint == LoadCheckpoint(num, lines, rt)
  {
    hide ReadBoundary, ReadState, ReadModelAndEnd, Expect, Restorable;
    var reader := new Reader(num, lines);
    assert lines[0..] == lines;
    var boundary := reader.BoundaryLines();
    if boundary.None? { return None; }
    var (version, b) := boundary.value;
    if version == 2 || b.digests != rt.expected { return None; }
    var state: Option<State<R>> := None;
    if version == 3 {
      if rt.slot.None? || rt.slot.value.kind != b.optimizer { return None; }
      state := reader.StateLines(b.optimizer, rt.slot.value.schedule, rt.shape);
      if state.None? { return None; }
      var line := reader.Require(1, "model");
      if line.None? { return None; }
    } else if rt.slot.Some? && rt.slot.value.requiresState {
      return None;
    }
    var model := reader.ModelAndEnd(rt.shape);
    if model.None? { return None; }
    if state.Some? && !Restorable(num, state.value) { return None; }
    checkpoint := Some(Checkpoint(b, state, model.value));
  }

  method ReadEarlyFile<R>(num: Numerals<R>, lines: seq<Line>, rt: Runtime)
    returns (checkpoint: Option<EarlyCheckpoint<R>>)
    ensures checkpoint == LoadEarly(num, lines, rt)
  {
    hide ReadBoundary, ReadState, ReadModels, ReadSize, ReadReal, Restorable;
    var reader := new Reader(num, lines);
    assert lines[0..] == lines;
    var boundary := reader.BoundaryLines();
    if boundary.None? { return None; }
    var (version, b) := boundary.value;
    if version == 1 { return None; }
    var bestEpoch := reader.Size("best_epoch");
    if bestEpoch.None? { return None; }
    var bestLoss := reader.Real("best_loss");
    if bestLoss.None? { return None; }
    var stale := reader.Size("stale_epochs");
    if stale.None? || b.digests != rt.expected { return None; }
    var state: Option<State<R>> := None;
    if version == 3 {
      if rt.slot.None? || rt.slot.value.kind != b.optimizer { return None; }
      state := reader.StateLines(b.optimizer, rt.slot.value.schedule, rt.shape);
      if state.None? { return None; }
    } else if rt.slot.Some? && rt.slot.value.requiresState {
      return None;
    }
    var models := reader.Models(rt.shape);
    if models.None? || bestEpoch.value > b.completed || stale.value > b.completed { return None; }
    if state.Some? && !Restorable(num, state.value) { return None; }
    checkpoint := Some(EarlyCheckpoint(b, bestEpoch.value, bestLoss.value, stale.value, state,
                                       models.value.0, models.value.1));
  }

  method ReadWeightsFile<R>(num: Numerals<R>, lines: seq<Line>, rt: Runtime) returns (weights: Option<WeightsFile<R>>)
    ensures weights == LoadWeights(num, lines, rt)
  {
    hide ReadHeader, ReadSize, ReadModelAndEnd, Expect;
    var reader := new Reader(num, lines);
    assert lines[0..] == lines;
    var header := reader.HeaderLines("weights");
    if header.None? { return None; }
    var (version, digests, completed) := header.value;
    if version == 3 || digests != rt.expected { return None; }
    var selected, target, reason := completed, completed, TargetEpochs;
    if version == 2 {
      var selectedLine := reader.Size("selected_epoch");
      if selectedLine.None? { return None; }
      var targetLine := reader.Size("target_epochs");
      if targetLine.None? { return None; }
      var name := reader.Require(2, "completion");
      if name.None? || CompletionFromName(name.value[1]).None? { return None; }
      selected, target, reason := selectedLine.value, targetLine.value, CompletionFromName(name.value[1]).value;
      if target == 0 || selected == 0 || selected > completed || completed > target
         || (reason == TargetEpochs && completed != target) || (reason != TargetEpochs && completed >= target) {
        return None;
      }
    }
    var model := reader.ModelAndEnd(rt.shape);
    if model.None? { return None; }
    weights := Some(WeightsFile(digests, completed, selected, target, reason,
                                if version == 2 then 2 else 1, model.value));
  }

  // ---------- the writer ----------

  /** A file being written. Each method's ghost `tail` is whatever will follow. */
  class Stream<R> {
    const num: Numerals<R>
    var lines: seq<Line>

    constructor (num: Numerals<R>)
      ensures this.num == num && lines == []
    {
      this.num, lines := num, [];
    }

    method Put(line: Line, ghost tail: seq<Line>)
      modifies this
      ensures lines + tail == old(lines) + ([line] + tail)
    {
      lines := lines + [line];
    }

    method PutValues(values: seq<R>, ghost tail: seq<Line>)
      modifies this
      ensures lines + tail == old(lines) + WriteValues(num, values, tail)
    {
      hide WriteValues;
      NoValueLines(num, tail);
      for i := 0 to |values|
        invariant lines + WriteValues(num, values[i..], tail) == old(lines) + WriteValues(num, values, tail)
      {
        OneValueLine(num, values[i..], tail);
        assert values[i..][1..] == values[i + 1..];
        Put([num.print_(values[i])], WriteValues(num, values[i + 1..], tail));
      }
      assert values[|values|..] == [];
    }

    method PutLayer(layer: Layer<R>, index: Word, ghost tail: seq<Line>)
      modifies this
      ensures lines + tail == old(lines) + WriteLayer(num, layer, index, tail)
    {
      hide WriteValues, Decimal;
      ghost var biases := WriteValues(num, layer.biases, [["end_layer"]] + tail);
      ghost var weights := WriteValues(num, layer.weights, [["biases"]] + biases);
      Put(["layer", Decimal(index)], [["weights"]] + weights);
      Put(["weights"], weights);
      PutValues(layer.weights, [["biases"]] + biases);
      Put(["biases"], biases);
      PutValues(layer.biases, [["end_layer"]] + tail);
      Put(["end_layer"], tail);
    }

    method PutLayers(layers: seq<Layer<R>>, ghost tail: seq<Line>)
      requires |layers| <= MODULUS
      modifies this
      ensures lines + tail == old(lines) + WriteLayers(num, layers, 0, tail)
    {
      hide WriteLayers, WriteLayer;
      assert layers[0..] == layers;
      for i := 0 to |layers|
        invariant lines + WriteLayers(num, layers[i..], i, tail) == old(lines) + WriteLayers(num, layers, 0, tail)
      {
        OneLayerLines(num, layers[i..], i, tail);
        assert layers[i..][1..] == layers[i + 1..];
        PutLayer(layers[i], i, WriteLayers(num, layers[i + 1..], i + 1, tail));
      }
      assert layers[|layers|..] == [];
      NoLayerLines(num, |layers|, tail);
      Put(["end"], tail);
    }

    method PutOptional(name: string, value: Option<R>, ghost tail: seq<Line>)
      modifies this
      ensures lines + tail == old(lines) + WriteOptional(num, name, value, tail)
    {
      if value.Some? {
        Put([name, num.print_(value.value)], tail);
      }
    }

    method PutSchedule(s: State<R>, ghost tail: seq<Line>)
      modifies this
      ensures lines + tail == old(lines) + WriteSchedule(num, s, tail)
    {
      hide Decimal, Persistence.ScheduleName, WriteOptional;
      ghost var best := WriteOptional(num, "schedule_best_metric", s.best, tail);
      ghost var stale := WriteSize("schedule_stale_epochs", s.stale, best);
      ghost var hasBest := WriteFlag("schedule_has_best", s.best.Some?, stale);
      ghost var next := WriteSize("schedule_next_transition", s.nextTransition, hasBest);
      ghost var rate := WriteReal(num, "schedule_current_rate", s.rate, next);
      ghost var completed := WriteSize("schedule_completed_epochs", s.completed, rate);
      Put(["optimizer_timestep", Decimal(s.timestep)],
          [["learning_rate_schedule", Persistence.ScheduleName(s.schedule)]] + completed);
      Put(["learning_rate_schedule", Persistence.ScheduleName(s.schedule)], completed);
      Put(["schedule_completed_epochs", Decimal(s.completed)], rate);
      Put(["schedule_current_rate", num.print_(s.rate)], next);
      Put(["schedule_next_transition", Decimal(s.nextTransition)], hasBest);
      Put(["schedule_has_best", if s.best.Some? then "1" else "0"], stale);
      Put(["schedule_stale_epochs", Decimal(s.stale)], best);
      PutOptional("schedule_best_metric", s.best, tail);
    }

    method PutConvergence(s: State<R>, ghost tail: seq<Line>)
      modifies this
      ensures lines + tail == old(lines) + WriteConvergence(num, s, tail)
    {
      hide Decimal, WriteOptional;
      ghost var best := WriteOptional(num, "convergence_best_loss", s.convergenceBest, tail);
      ghost var reason := WriteSize("convergence_reason", ReasonCode(s.reason), best);
      ghost var stale := WriteSize("convergence_stale_epochs", s.convergenceStale, reason);
      Put(["convergence_has_best", if s.convergenceBest.Some? then "1" else "0"], stale);
      Put(["convergence_stale_epochs", Decimal(s.convergenceStale)], reason);
      Put(["convergence_reason", Decimal(ReasonCode(s.reason))], best);
      PutOptional("convergence_best_loss", s.convergenceBest, tail);
    }

    method PutBuffers(buffers: Buffers<R>, ghost tail: seq<Line>)
      requires BuffersFit(buffers)
      modifies this
      ensures lines + tail == old(lines) + WriteBuffers(num, buffers, tail)
    {
      hide WriteLayers;
      match buffers {
        case NoBuffers =>
        case MomentumBuffers(v) =>
          Put(["optimizer_state1"], WriteLayers(num, v, 0, tail));
          PutLayers(v, tail);
        case AdamBuffers(b1, b2, m, v) =>
          ghost var second := WriteLayers(num, v, 0, tail);
          ghost var first := WriteLayers(num, m, 0, [["optimizer_state2"]] + second);
          ghost var beta2 := WriteReal(num, "optimizer_beta2_power", b2, [["optimizer_state1"]] + first);
          Put(["optimizer_beta1_power", num.print_(b1)], beta2);
          Put(["optimizer_beta2_power", num.print_(b2)], [["optimizer_state1"]] + first);
          Put(["optimizer_state1"], first);
          PutLayers(m, [["optimizer_state2"]] + second);
          Put(["optimizer_state2"], second);
          PutLayers(v, tail);
      }
    }

    method PutState(s: State<R>, ghost tail: seq<Line>)
      requires BuffersFit(s.buffers)
      modifies this
      ensures lines + tail == old(lines) + WriteState(num, s, tail)
    {
      hide WriteSchedule, WriteConvergence, WriteBuffers;
      ghost var buffers := WriteBuffers(num, s.buffers, tail);
      PutSchedule(s, WriteConvergence(num, s, buffers));
      PutConvergence(s, buffers);
      PutBuffers(s.buffers, tail);
    }

    method PutHeader(kind: string, version: Word, d: Digests, completed: Word, ghost tail: seq<Line>)
      modifies this
      ensures lines + tail == old(lines) + WriteHeader(kind, version, d, completed, tail)
    {
      hide Decimal;
      ghost var size := WriteSize("completed_epochs", completed, tail);
      ghost var training := WriteDigest("training_digest", d.training, size);
      ghost var dataset := WriteDigest("dataset_digest", d.dataset, training);
      ghost var model := WriteDigest("model_digest", d.model, dataset);
      Put(["neural-c", kind, Decimal(version)], model);
      Put(["model_digest", PREFIX + d.model], dataset);
      Put(["dataset_digest", PREFIX + d.dataset], training);
      Put(["training_digest", PREFIX + d.training], size);
      Put(["completed_epochs", Decimal(completed)], tail);
    }

    method PutBoundary(b: Boundary, version: Word, ghost tail: seq<Line>)
      modifies this
      ensures lines + tail == old(lines) + WriteBoundary(b, version, tail)
    {
      hide Decimal, OptimizerName, WriteHeader;
      ghost var rng := WriteSize("rng_state", b.rng, tail);
      ghost var name := [["optimizer", OptimizerName(b.optimizer)]] + rng;
      PutHeader("checkpoint", version, b.digests, b.completed, WriteSize("target_epochs", b.target, name));
      Put(["target_epochs", Decimal(b.target)], name);
      Put(["optimizer", OptimizerName(b.optimizer)], rng);
      Put(["rng_state", Decimal(b.rng)], tail);
    }
  }

  lemma NoValueLines<R>(num: Numerals<R>, tail: seq<Line>)
    ensures WriteValues(num, [], tail) == tail
  {
  }

  lemma OneValueLine<R>(num: Numerals<R>, values: seq<R>, tail: seq<Line>)
    requires values != []
    ensures WriteValues(num, values, tail) == [[num.print_(values[0])]] + WriteValues(num, values[1..], tail)
  {
  }

  lemma NoLayerLines<R>(num: Numerals<R>, index: nat, tail: seq<Line>)
    requires index <= MODULUS
    ensures WriteLayers(num, [], index, tail) == [["end"]] + tail
  {
  }

  lemma OneLayerLines<R>(num: Numerals<R>, layers: seq<Layer<R>>, index: nat, tail: seq<Line>)
    requires layers != [] && index + |layers| <= MODULUS
    ensures WriteLayers(num, layers, index, tail)
         == WriteLayer(num, layers[0], index, WriteLayers(num, layers[1..], index + 1, tail))
  {
    hide WriteLayer;
  }

  method WriteCheckpointFile<R>(num: Numerals<R>, c: Checkpoint<R>) returns (lines: seq<Line>)
    requires |c.model| <= MODULUS && (c.state.Some? ==> BuffersFit(c.state.value.buffers))
    ensures lines == WriteCheckpoint(num, c)
  {
    hide WriteBoundary, WriteState, WriteLayers;
    var stream := new Stream(num);
    ghost var model := WriteModelAndEnd(num, c.model);
    match c.state {
      case None =>
        stream.PutBoundary(c.boundary, 1, model);
      case Some(state) =>
        stream.PutBoundary(c.boundary, 3, WriteState(num, state, [["model"]] + model));
        stream.PutState(state, [["model"]] + model);
        stream.Put(["model"], model);
    }
    stream.PutLayers(c.model, []);
    lines := stream.lines;
    assert lines + [] == lines && [] + WriteCheckpoint(num, c) == WriteCheckpoint(num, c);
  }

  method WriteEarlyFile<R>(num: Numerals<R>, e: EarlyCheckpoint<R>) returns (lines: seq<Line>)
    requires |e.current| <= MODULUS && |e.best| <= MODULUS && (e.state.Some? ==> BuffersFit(e.state.value.buffers))
    ensures lines == WriteEarly(num, e)
  {
    hide WriteBoundary, WriteState, WriteLayers, Decimal;
    var stream := new Stream(num);
    ghost var models := WriteModels(num, e);
    ghost var rest := if e.state.Some? then WriteState(num, e.state.value, models) else models;
    ghost var stale := WriteSize("stale_epochs", e.stale, rest);
    ghost var loss := WriteReal(num, "best_loss", e.bestLoss, stale);
    stream.PutBoundary(e.boundary, if e.state.Some? then 3 else 2, WriteEarlyLines(num, e, rest));
    stream.Put(["best_epoch", Decimal(e.bestEpoch)], loss);
    stream.Put(["best_loss", num.print_(e.bestLoss)], stale);
    stream.Put(["stale_epochs", Decimal(e.stale)], rest);
    if e.state.Some? {
      stream.PutState(e.state.value, models);
    }
    ghost var best := [["best_model"]] + WriteModelAndEnd(num, e.best);
    stream.Put(["current_model"], WriteLayers(num, e.current, 0, best));
    stream.PutLayers(e.current, best);
    stream.Put(["best_model"], WriteModelAndEnd(num, e.best));
    stream.PutLayers(e.best, []);
    lines := stream.lines;
    assert lines + [] == lines && [] + WriteEarly(num, e) == WriteEarly(num, e);
  }

  method WriteWeightsFile<R>(num: Numerals<R>, w: WeightsFile<R>) returns (lines: seq<Line>)
    requires |w.model| <= MODULUS
    ensures lines == WriteWeights(num, w)
  {
    hide WriteHeader, WriteLayers, Decimal, CompletionName;
    var stream := new Stream(num);
    ghost var model := WriteModelAndEnd(num, w.model);
    ghost var name := [["completion", CompletionName(w.reason)]] + model;
    ghost var target := WriteSize("target_epochs", w.target, name);
    stream.PutHeader("weights", w.version, w.digests, w.completed,
                     if w.version == 1 then model else WriteSize("selected_epoch", w.selected, target));
    if w.version != 1 {
      stream.Put(["selected_epoch", Decimal(w.selected)], target);
      stream.Put(["target_epochs", Decimal(w.target)], name);
      stream.Put(["completion", CompletionName(w.reason)], model);
    }
    stream.PutLayers(w.model, []);
    lines := stream.lines;
    assert lines + [] == lines && [] + WriteWeights(num, w) == WriteWeights(num, w);
  }
}
