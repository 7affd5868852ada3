/** Resume through the file: what a run saves is what the loader of its text gives
    back, for every state that training with the real optimizer steps can reach. */
module CheckpointFiles {
  import opened Options
  import opened Words
  import opened Layers
  import opened Schedule
  import opened Training
  import opened Persistence
  import opened TextLines
  import OptimizerStep

  type Model<R> = seq<Layer<R>>
  type Moments<R> = OptimizerStep.Moments<R>

  /** The numbers of the program and of its files, what real numbers they stand
      for, and the arithmetic of the optimizer on them. */
  datatype Format<!R> = Format(
    num: Numerals<R>, stored: real -> R, meaning: R -> real, fl: OptimizerStep.Floats<R>,
    k: OptimizerStep.Coefficients<R>, digests: Digests, rng: Word)

  /** Rounding a product of two numbers between zero and one stays there; the rest
      says what the two range tests of the validators mean. */
  ghost predicate ValidFormat<R(!new)>(f: Format<R>) {
    && Exact(f.num) && CleanNumerals(f.num) && f.digests.Valid()
    && (forall r :: f.num.positive(r) <==> f.meaning(r) > 0.0)
    && f.num.unit(f.fl.one) && f.num.unit(f.k.beta1) && f.num.unit(f.k.beta2)
    && (forall a, b :: f.num.unit(a) && f.num.unit(b) ==> f.num.unit(f.fl.mul(a, b)))
  }

  /** A real number of the model that the program's numbers can hold. */
  predicate Held<R>(f: Format<R>, x: real) {
    f.meaning(f.stored(x)) == x
  }

  predicate HeldIfAny<R>(f: Format<R>, x: Option<real>) {
    x.Some? ==> Held(f, x.value)
  }

  function Stored<R>(f: Format<R>, x: Option<real>): Option<R> {
    if x.Some? then Some(f.stored(x.value)) else None
  }

  function Meaning<R>(f: Format<R>, x: Option<R>): Option<real> {
    if x.Some? then Some(f.meaning(x.value)) else None
  }

  // ---------- optimizer state ----------

  function BuffersOf<R>(kind: Kind, m: Moments<R>): Buffers<R> {
    match kind
    case GradientDescent => NoBuffers
    case Momentum => MomentumBuffers(m.first)
    case Adam => AdamBuffers(m.power1, m.power2, m.first, m.second)
  }

  /** Restoring over a fresh optimizer leaves alone what the file does not hold. */
  function MomentsOf<R>(initial: Moments<R>, s: State<R>): Moments<R> {
    match s.buffers
    case NoBuffers => initial.(timestep := s.timestep)
    case MomentumBuffers(v) => initial.(timestep := s.timestep, first := v)
    case AdamBuffers(b1, b2, first, second) => OptimizerStep.Moments(s.timestep, b1, b2, first, second)
  }

  function StateOf<R>(f: Format<R>, o: Settings, c: Control, m: Moments<R>): State<R> {
    State(m.timestep, o.schedule, c.completed, f.stored(c.rate), c.nextTransition, Stored(f, c.best), c.stale,
          Stored(f, c.convergenceBest), c.convergenceStale, c.reason, BuffersOf(o.kind, m))
  }

  function ControlOf<R>(f: Format<R>, s: State<R>): Control {
    Control(f.meaning(s.rate), s.completed, s.nextTransition, s.stale, Meaning(f, s.best),
            s.convergenceStale, Meaning(f, s.convergenceBest), s.reason)
  }

  // ---------- what reachable states keep ----------

  ghost predicate Usable<R>(f: Format<R>, kind: Kind, initial: Moments<R>, shape: Model<R>, m: Moments<R>) {
    && OptimizerStep.SameShape(shape, m.first) && OptimizerStep.SameShape(shape, m.second)
    && f.num.unit(m.power1) && f.num.unit(m.power2)
    && (kind == GradientDescent ==> m == initial.(timestep := m.timestep))
    && (kind == Momentum ==> m == initial.(timestep := m.timestep, first := m.first))
  }

  /** The powers of a fresh optimizer are one, its buffers zero. */
  ghost predicate FreshMoments<R>(f: Format<R>, shape: Model<R>, m: Moments<R>) {
    && OptimizerStep.SameShape(shape, m.first) && OptimizerStep.SameShape(shape, m.second)
    && m.power1 == m.power2 == f.fl.one && m.timestep == 0
  }

  /** One optimizer step keeps the shape and the range of its state. */
  lemma SteppedKeepsUsable<R(!new)>(f: Format<R>, kind: Kind, initial: Moments<R>, parameters: Model<R>, m: Moments<R>,
                                    g: Model<R>, rate: R)
    requires ValidFormat(f) && Usable(f, kind, initial, parameters, m) && OptimizerStep.SameShape(parameters, g)
    requires OptimizerStep.Stepped(f.fl, kind, f.k, parameters, m, g, rate).Some?
    ensures var (next, s) := OptimizerStep.Stepped(f.fl, kind, f.k, parameters, m, g, rate).value;
            OptimizerStep.SameShape(parameters, next) && Usable(f, kind, initial, parameters, s)
  {
    hide Exact;
    hide OptimizerStep.LayersFinite, OptimizerStep.AdamLayers;
  }

  /** Without rounding, the Adam powers are those of the timestep. */
  lemma SteppedPowers(fl: OptimizerStep.Floats<real>, k: OptimizerStep.Coefficients<real>, parameters: Model<real>,
                      m: Moments<real>, g: Model<real>, rate: real)
    requires forall a, b :: fl.mul(a, b) == a * b
    requires OptimizerStep.SameShape(parameters, m.first) && OptimizerStep.SameShape(parameters, m.second)
    requires OptimizerStep.SameShape(parameters, g)
    requires m.power1 == RPow(k.beta1, m.timestep) && m.power2 == RPow(k.beta2, m.timestep)
    requires OptimizerStep.Stepped(fl, Adam, k, parameters, m, g, rate).Some?
    ensures var s := OptimizerStep.Stepped(fl, Adam, k, parameters, m, g, rate).value.1;
            && s.timestep == m.timestep + 1
            && s.power1 == RPow(k.beta1, s.timestep) && s.power2 == RPow(k.beta2, s.timestep)
  {
    RPowStep(k.beta1, m.timestep);
    RPowStep(k.beta2, m.timestep);
    hide OptimizerStep.LayersFinite, OptimizerStep.AdamLayers;
  }

  ghost predicate ControlUsable(c: Control) {
    && c.rate > 0.0
    && (c.best.None? ==> c.stale == 0) && (c.convergenceBest.None? ==> c.convergenceStale == 0)
  }

  lemma ObserveKeepsUsable(o: Settings, c: Control, metric: real)
    requires ControlUsable(c) && Observe(o, c, metric).Some?
    ensures ControlUsable(Observe(o, c, metric).value)
  {
  }

  // ---------- what reachable runs keep ----------

  ghost predicate Storable<R>(f: Format<R>, env: Env<Model<R>, Moments<R>>, r: Run<Model<R>, Moments<R>>) {
    && Usable(f, env.settings.kind, env.freshMoments, r.model, r.moments)
    && OptimizerStep.SameShape(env.freshMoments.first, r.model) && |r.model| <= MODULUS
    && ControlUsable(r.control)
    && (env.patience == 0 ==> r.best == None && r.stale == 0)
    && (env.patience != 0 ==> r.stale <= r.epoch)
    && (r.best.Some? ==>
          0 < r.best.value.epoch <= r.epoch && OptimizerStep.SameShape(env.freshMoments.first, r.best.value.model))
  }

  /** Every batch update ends with a step of the real optimizer. */
  ghost predicate StepsWith<R(!new)>(f: Format<R>, env: Env<Model<R>, Moments<R>>) {
    forall m: Model<R>, v: Moments<R>, rate: real, epoch: nat, batch: nat ::
      env.update(m, v, rate, epoch, batch).Some?
      && OptimizerStep.SameShape(m, v.first) && OptimizerStep.SameShape(m, v.second) ==>
        exists g: Model<R>, q: R :: OptimizerStep.SameShape(m, g)
          && OptimizerStep.Stepped(f.fl, env.settings.kind, f.k, m, v, g, q) == env.update(m, v, rate, epoch, batch)
  }

  lemma {:induction false} UpdatesKeepUsable<R(!new)>(f: Format<R>, env: Env<Model<R>, Moments<R>>, m: Model<R>,
                                                      v: Moments<R>, rate: real, epoch: nat, batch: nat)
    requires ValidFormat(f) && StepsWith(f, env)
    requires Usable(f, env.settings.kind, env.freshMoments, m, v)
    requires Updates(env, m, v, rate, epoch, batch).Some?
    ensures var (next, s) := Updates(env, m, v, rate, epoch, batch).value;
            OptimizerStep.SameShape(m, next) && Usable(f, env.settings.kind, env.freshMoments, next, s)
    decreases env.batches - batch
  {
    if batch < env.batches {
      var (next, s) := env.update(m, v, rate, epoch, batch).value;
      UpdateKeepsUsable(f, env, m, v, rate, epoch, batch);
      hide Usable, StepsWith, ValidFormat;
      UpdatesKeepUsable(f, env, next, s, rate, epoch, batch + 1);
    }
  }

  lemma UpdateKeepsUsable<R(!new)>(f: Format<R>, env: Env<Model<R>, Moments<R>>, m: Model<R>, v: Moments<R>,
                                   rate: real, epoch: nat, batch: nat)
    requires ValidFormat(f) && StepsWith(f, env)
    requires Usable(f, env.settings.kind, env.freshMoments, m, v) && env.update(m, v, rate, epoch, batch).Some?
    ensures var (next, s) := env.update(m, v, rate, epoch, batch).value;
            OptimizerStep.SameShape(m, next) && Usable(f, env.settings.kind, env.freshMoments, next, s)
  {
    hide ValidFormat;
    var g: Model<R>, q: R :| OptimizerStep.SameShape(m, g)
      && OptimizerStep.Stepped(f.fl, env.settings.kind, f.k, m, v, g, q) == env.update(m, v, rate, epoch, batch);
    SteppedKeepsUsable(f, env.settings.kind, env.freshMoments, m, v, g, q);
  }

  lemma BeginIsStorable<R(!new)>(f: Format<R>, env: Env<Model<R>, Moments<R>>, model: Model<R>, epoch: Word,
                                 best: Option<Best<Model<R>>>)
    requires env.settings.Valid() && FreshMoments(f, model, env.freshMoments) && f.num.unit(f.fl.one)
    requires |model| <= MODULUS && (env.patience == 0 ==> best == None)
    requires best.Some? ==> 0 < best.value.epoch <= epoch && OptimizerStep.SameShape(model, best.value.model)
    ensures Storable(f, env, Begin(env, model, epoch, best)) && Sound(env, Begin(env, model, epoch, best))
  {
    BeginIsSound(env, model, epoch, best);
  }

  lemma NextEpochKeepsStorable<R(!new)>(f: Format<R>, env: Env<Model<R>, Moments<R>>, r: Run<Model<R>, Moments<R>>)
    requires ValidFormat(f) && StepsWith(f, env)
    requires Storable(f, env, r) && r.epoch < SIZE_MAX && NextEpoch(env, r).Some?
    ensures Storable(f, env, NextEpoch(env, r).value)
    ensures env.patience != 0 ==> NextEpoch(env, r).value.best.Some?
  {
    var (m, v) := Updates(env, r.model, r.moments, r.control.rate, r.epoch, 0).value;
    UpdatesKeepUsable(f, env, r.model, r.moments, r.control.rate, r.epoch, 0);
    ObserveKeepsUsable(env.settings, r.control, env.objective(m).value);
    hide ValidFormat, StepsWith, Usable, Observe, Updates, ControlUsable;
  }

  lemma {:induction false} RunAtIsStorable<R(!new)>(f: Format<R>, env: Env<Model<R>, Moments<R>>,
                                                    start: Run<Model<R>, Moments<R>>, target: Word, k: nat)
    requires ValidFormat(f) && StepsWith(f, env) && Storable(f, env, start)
    requires RunAt(env, start, target, k).Some?
    ensures Storable(f, env, RunAt(env, start, target, k).value)
    ensures env.patience != 0 && k > 0 ==> RunAt(env, start, target, k).value.best.Some?
  {
    hide ValidFormat, StepsWith, Storable, NextEpoch;
    if k > 0 {
      RunAtIsStorable(f, env, start, target, k - 1);
      NextEpochKeepsStorable(f, env, RunAt(env, start, target, k - 1).value);
    }
  }

  // ---------- the text of a checkpoint ----------

  function FileOf<R>(f: Format<R>, o: Settings, s: Saved<Model<R>, Moments<R>>): Checkpoint<R> {
    Checkpoint(Boundary(f.digests, s.epoch, s.target, o.kind, f.rng),
               if s.state.Some? then Some(StateOf(f, o, s.state.value.1, s.state.value.0)) else None, s.model)
  }

  function SavedOf<R>(f: Format<R>, initial: Moments<R>, c: Checkpoint<R>): Saved<Model<R>, Moments<R>> {
    Saved(c.model, c.boundary.completed, c.boundary.target,
          if c.state.Some? then Some((MomentsOf(initial, c.state.value), ControlOf(f, c.state.value))) else None, None,
              0)
  }

  function EarlyFileOf<R>(f: Format<R>, o: Settings, s: Saved<Model<R>, Moments<R>>): EarlyCheckpoint<R>
    requires s.best.Some? && s.best.value.epoch <= SIZE_MAX && s.stale <= SIZE_MAX
  {
    var best := s.best.value;
    EarlyCheckpoint(Boundary(f.digests, s.epoch, s.target, o.kind, f.rng), best.epoch, f.stored(best.loss), s.stale,
                    if s.state.Some? then Some(StateOf(f, o, s.state.value.1, s.state.value.0)) else None,
                    s.model, best.model)
  }

  function EarlySavedOf<R>(f: Format<R>, initial: Moments<R>, e: EarlyCheckpoint<R>): Saved<Model<R>, Moments<R>> {
    Saved(e.current, e.boundary.completed, e.boundary.target,
          if e.state.Some? then Some((MomentsOf(initial, e.state.value), ControlOf(f, e.state.value))) else None,
          Some(Best(f.meaning(e.bestLoss), e.bestEpoch, e.best)), e.stale)
  }

  /** The runtime that a project of this configuration loads into. */
  function RuntimeOf<R>(f: Format<R>, env: Env<Model<R>, Moments<R>>): Runtime {
    var o := env.settings;
    Runtime(ShapeOf(env.freshMoments.first), Some(Slot(o.kind, o.schedule, o.RequiresState())), f.digests)
  }

  ghost predicate Writable<R>(env: Env<Model<R>, Moments<R>>, s: Saved<Model<R>, Moments<R>>) {
    && |s.model| <= MODULUS && |env.freshMoments.first| <= MODULUS
    && (s.state.Some? ==> |s.state.value.0.first| <= MODULUS && |s.state.value.0.second| <= MODULUS)
    && (env.patience != 0 ==>
          s.best.Some? && s.best.value.epoch <= SIZE_MAX && s.stale <= SIZE_MAX && |s.best.value.model| <= MODULUS)
  }

  /** Write the checkpoint's characters, read them back, and take what the loader
      installs. */
  ghost function Reload<R>(f: Format<R>, env: Env<Model<R>, Moments<R>>, s: Saved<Model<R>, Moments<R>>)
    : Option<Saved<Model<R>, Moments<R>>>
    requires Writable(env, s)
  {
    if env.patience == 0 then
      match Reread(WriteCheckpoint(f.num, FileOf(f, env.settings, s)))
      case None => None
      case Some(lines) =>
        match LoadCheckpoint(f.num, lines, RuntimeOf(f, env))
        case None => None
        case Some(c) => Some(SavedOf(f, env.freshMoments, c))
    else
      match Reread(WriteEarly(f.num, EarlyFileOf(f, env.settings, s)))
      case None => None
      case Some(lines) =>
        match LoadEarly(f.num, lines, RuntimeOf(f, env))
        case None => None
        case Some(e) => Some(EarlySavedOf(f, env.freshMoments, e))
  }

  /** The lines that the reader finds in the characters of written ones. */
  ghost function Reread(lines: seq<Line>): Option<seq<Line>> {
    if AllClean(lines) then Lines(Text(lines)) else None
  }

  /** The numbers of the run are ones that the program can hold. */
  predicate AllHeld<R>(f: Format<R>, r: Run<Model<R>, Moments<R>>) {
    && Held(f, r.control.rate) && HeldIfAny(f, r.control.best) && HeldIfAny(f, r.control.convergenceBest)
    && (r.best.Some? ==> Held(f, r.best.value.loss))
  }

  lemma SameShapeOf<R>(a: Model<R>, b: Model<R>)
    requires OptimizerStep.SameShape(a, b)
    ensures ShapeOf(a) == ShapeOf(b)
  {
  }

  /** Every state that training can reach passes the restore validators, fits its
      slot, and is read back as it was. */
  lemma ReachableStateIsRestorable<R(!new)>(f: Format<R>, env: Env<Model<R>, Moments<R>>, r: Run<Model<R>, Moments<R>>)
    requires ValidFormat(f) && Storable(f, env, r) && AllHeld(f, r)
    ensures var state := StateOf(f, env.settings, r.control, r.moments);
            && Restorable(f.num, state)
            && KindOf(state.buffers) == env.settings.kind
            && Shaped(state.buffers, ShapeOf(env.freshMoments.first)) && BuffersFit(state.buffers)
            && ControlOf(f, state) == r.control && MomentsOf(env.freshMoments, state) == r.moments
  {
    SameShapeOf(r.model, r.moments.first);
    SameShapeOf(r.model, r.moments.second);
    SameShapeOf(env.freshMoments.first, r.model);
    hide OptimizerStep.SameShape, ShapeOf;
  }

  lemma SavedIsWritable<R(!new)>(f: Format<R>, env: Env<Model<R>, Moments<R>>, r: Run<Model<R>, Moments<R>>,
                                 target: Word)
    requires Storable(f, env, r) && (env.patience != 0 ==> r.best.Some?)
    ensures Writable(env, Save(env, r, target))
  {
  }

  lemma OrdinaryReload<R(!new)>(f: Format<R>, env: Env<Model<R>, Moments<R>>, r: Run<Model<R>, Moments<R>>,
                                target: Word)
    requires ValidFormat(f) && Storable(f, env, r) && AllHeld(f, r)
    requires 0 < r.epoch <= target && env.patience == 0
    ensures Writable(env, Save(env, r, target)) && Reload(f, env, Save(env, r, target)) == Some(Save(env, r, target))
  {
    SavedIsWritable(f, env, r, target);
    ReachableStateIsRestorable(f, env, r);
    StateFitsSlot(f, env, r, target);
    SameShapeOf(env.freshMoments.first, r.model);
    hide StateFits, LoadCheckpoint, WriteCheckpoint, Restorable, StateOf, ControlOf, MomentsOf, Usable, AllClean, Lines;
    hide LoadEarly, WriteEarly, HexDigest, ShapeOf, AllHeld, Exact, CleanNumerals;
    CheckpointTextRoundTrip(f.num, FileOf(f, env.settings, Save(env, r, target)), RuntimeOf(f, env));
  }

  lemma EarlyReload<R(!new)>(f: Format<R>, env: Env<Model<R>, Moments<R>>, r: Run<Model<R>, Moments<R>>, target: Word)
    requires ValidFormat(f) && Storable(f, env, r) && AllHeld(f, r)
    requires 0 < r.epoch <= target && env.patience != 0 && r.best.Some?
    ensures Writable(env, Save(env, r, target)) && Reload(f, env, Save(env, r, target)) == Some(Save(env, r, target))
  {
    SavedIsWritable(f, env, r, target);
    ReachableStateIsRestorable(f, env, r);
    StateFitsSlot(f, env, r, target);
    SameShapeOf(env.freshMoments.first, r.model);
    SameShapeOf(env.freshMoments.first, r.best.value.model);
    hide StateFits, LoadEarly, WriteEarly, Restorable, StateOf, ControlOf, MomentsOf, Usable, AllClean, Lines;
    hide LoadCheckpoint, WriteCheckpoint, HexDigest, ShapeOf, Exact, CleanNumerals;
    EarlyTextRoundTrip(f.num, EarlyFileOf(f, env.settings, Save(env, r, target)), RuntimeOf(f, env));
  }

  /** The text of a checkpoint gives back exactly what was saved. */
  lemma ReloadIsIdentity<R(!new)>(f: Format<R>, env: Env<Model<R>, Moments<R>>, r: Run<Model<R>, Moments<R>>,
                                  target: Word)
    requires ValidFormat(f) && Storable(f, env, r) && AllHeld(f, r)
    requires 0 < r.epoch <= target && (env.patience != 0 ==> r.best.Some?)
    ensures Writable(env, Save(env, r, target)) && Reload(f, env, Save(env, r, target)) == Some(Save(env, r, target))
  {
    hide *;
    if env.patience == 0 {
      OrdinaryReload(f, env, r, target);
    } else {
      EarlyReload(f, env, r, target);
    }
  }

  lemma StateFitsSlot<R(!new)>(f: Format<R>, env: Env<Model<R>, Moments<R>>, r: Run<Model<R>, Moments<R>>, target: Word)
    requires ValidFormat(f) && Storable(f, env, r) && AllHeld(f, r)
    ensures StateFits(FileOf(f, env.settings, Save(env, r, target)).state, env.settings.kind, RuntimeOf(f, env))
  {
    ReachableStateIsRestorable(f, env, r);
    hide Shaped, KindOf, BuffersFit, Restorable, ControlOf, MomentsOf, Usable;
  }

  /** Resume equivalence through the file, in both modes: after any epoch whose
      numbers the program can hold, the text of the checkpoint loads, and training
      on from it gives the outcome of the unbroken run if and only if the stale
      count had not reached the patience. */
  lemma ResumeThroughFile<R(!new)>(f: Format<R>, env: Env<Model<R>, Moments<R>>, start: Run<Model<R>, Moments<R>>,
                                   target: Word, k: nat)
    requires ValidEnv(env) && ValidFormat(f) && StepsWith(f, env)
    requires Sound(env, start) && Storable(f, env, start)
    requires k > 0 && RunAt(env, start, target, k).Some? && AllHeld(f, RunAt(env, start, target, k).value)
    ensures var r := RunAt(env, start, target, k).value;
            && Writable(env, Save(env, r, target)) && Reload(f, env, Save(env, r, target)).Some?
            && var resumed := Train(env, Restore(env, Reload(f, env, Save(env, r, target)).value), target);
               SameOutcome(env, Train(env, start, target), resumed)
               <==> !(env.patience != 0 && r.stale >= env.patience)
  {
    hide ValidFormat, StepsWith, Storable, AllHeld, Reload, Writable, ValidEnv, Sound, SameOutcome, RunAt;
    RunAtIsStorable(f, env, start, target, k);
    RunAtIsOnTheWay(env, start, target, k);
    ReloadIsIdentity(f, env, RunAt(env, start, target, k).value, target);
    ResumeEquivalence(env, start, target, k);
  }
}
