/** The promise as a whole: training over any worker pools, cut at any points and
    resumed on any others, computes what one thread computes in one pass. */
module Determinism {
  import opened Options
  import opened Words
  import opened Plans
  import opened Accumulator
  import opened Schedule
  import opened Training
  import opened EarlyStopping
  import opened Project
  import Executor
  import ExecutorSafety
  import ExecutorTheorems
  import opened Campaigns
  import Recovery
  import Shuffle

  /** A training configuration, down to the gradient of one sample. The step is
      regularization, clipping and the optimizer. */
  datatype Job<!M, !V, !G> = Job(
    samples: Word, batchSize: Word, seed: Word, shuffle: bool,
    ar: Arithmetic<G>,
    gradient: (M, nat) -> Option<G>,          // model, sample
    step: (M, V, real, G) -> Option<(M, V)>,  // model, moments, rate, mean gradient
    settings: Settings, objective: M -> Option<real>, validation: M -> Option<real>,
    patience: Word, minDelta: real, freshMoments: V)
  {
    function Batches(): nat {
      if samples == 0 then 0 else CeilDiv(samples, ResolvedBatchSize(samples, batchSize))
    }
  }

  ghost predicate ValidJob<M(!new), V(!new), G(!new)>(job: Job<M, V, G>) {
    && job.samples > 0
    && job.settings.Valid() && job.minDelta >= 0.0
    && (job.settings.kind == GradientDescent ==>
          forall m, v, rate, g :: job.step(m, v, rate, g).Some? ==> job.step(m, v, rate, g).value.1 == v)
  }

  /** The call that the trainer makes for one batch of one epoch. */
  function BatchCall<M, V, G>(job: Job<M, V, G>, m: M, epoch: Word, batch: nat): Executor.Call<G>
    requires batch < job.Batches()
  {
    BatchesTileTheDataset(job.samples, job.batchSize, batch);
    var plan := CreateBatchPlan(job.samples, ResolvedBatchSize(job.samples, job.batchSize)).value;
    var (begin, end) := BatchRange(plan, batch).value;
    Executor.Call(Some(Shuffle.EpochOrder(job.samples, job.seed, epoch, job.shuffle)), begin, end,
                  sample => job.gradient(m, sample))
  }

  ghost function Applied<M, V, G>(job: Job<M, V, G>, m: M, v: V, rate: real, mean: Option<G>): Option<(M, V)> {
    match mean
    case None => None
    case Some(g) => job.step(m, v, rate, g)
  }

  ghost function WithUpdate<M, V, G>(job: Job<M, V, G>, update: (M, V, real, nat, nat) -> Option<(M, V)>): Env<M, V> {
    Env(job.settings, job.Batches(), update, job.objective, job.validation, job.patience, job.minDelta,
        job.freshMoments)
  }

  /** The reference: every batch is one pass of one thread. */
  ghost function SequentialEnv<M, V, G>(job: Job<M, V, G>): Env<M, V> {
    WithUpdate(job, (m: M, v: V, rate: real, epoch: nat, batch: nat) =>
      if epoch < MODULUS && batch < job.Batches()
      then Applied(job, m, v, rate, Executor.Sequential(job.ar, BatchCall(job, m, epoch, batch)))
      else None)
  }

  // ---------- what an epoch visits ----------

  /** The samples that a call visits, in the order of their gradients. */
  ghost function VisitedBy<G>(call: Executor.Call<G>): seq<nat> {
    match call.order
    case None => []
    case Some(indices) => if call.begin <= call.end <= |indices| then indices[call.begin..call.end] else []
  }

  ghost function Visited<M, V, G>(job: Job<M, V, G>, m: M, epoch: Word, batches: nat): seq<nat>
    requires batches <= job.Batches()
  {
    if batches == 0 then
      []
    else
      Visited(job, m, epoch, batches - 1) + VisitedBy(BatchCall(job, m, epoch, batches - 1))
  }

  /** A batch takes its piece of the epoch's order, which begins where the piece
      before ends, and the gradients are those of the samples named there. */
  lemma BatchIsPiece<M, V, G>(job: Job<M, V, G>, m: M, epoch: Word, batch: nat)
    requires job.samples > 0 && batch < job.Batches()
    ensures var order := Shuffle.EpochOrder(job.samples, job.seed, epoch, job.shuffle);
            var call := BatchCall(job, m, epoch, batch);
            && |order| == job.samples && call.order == Some(order) && call.begin < call.end <= |order|
            && (forall p :: call.begin <= p < call.end ==>
                  Executor.PositionGradient(call, p) == job.gradient(m, order[p]))
            && (batch == 0 ==> call.begin == 0)
            && (batch > 0 ==> call.begin == BatchCall(job, m, epoch, batch - 1).end)
            && (batch + 1 == job.Batches() ==> call.end == job.samples)
  {
    BatchesTileTheDataset(job.samples, job.batchSize, batch);
    if batch > 0 {
      BatchesTileTheDataset(job.samples, job.batchSize, batch - 1);
    }
    hide Shuffle.EpochOrder, BatchRange, ResolvedBatchSize, CeilDiv;
  }

  /** The batches of an epoch take its order piece by piece: every sample once, in the
      order that seed and epoch draw. */
  lemma EpochVisitsInOrder<M, V, G>(job: Job<M, V, G>, m: M, epoch: Word)
    requires job.samples > 0
    ensures Shuffle.OrderedAs(job.samples, job.seed, epoch, job.shuffle, Visited(job, m, epoch, job.Batches()))
    ensures multiset(Visited(job, m, epoch, job.Batches())) == multiset(Shuffle.Identity(job.samples))
  {
    hide Shuffle.EpochOrder, Visited, BatchCall, Shuffle.OrderedAs, Shuffle.Identity;
    var order := Shuffle.EpochOrder(job.samples, job.seed, epoch, job.shuffle);
    CeilDivCovers(job.samples, ResolvedBatchSize(job.samples, job.batchSize));
    var last := job.Batches() - 1;
    hide CeilDiv, ResolvedBatchSize;
    BatchIsPiece(job, m, epoch, last);
    VisitedUpTo(job, m, epoch, last);
    assert order[..|order|] == order;
    Shuffle.EpochOrderIs(job.samples, job.seed, epoch, job.shuffle);
    Shuffle.EpochOrderIsPermutation(job.samples, job.seed, epoch, job.shuffle);
  }

  lemma {:induction false} VisitedUpTo<M, V, G>(job: Job<M, V, G>, m: M, epoch: Word, batch: nat)
    requires job.samples > 0 && batch < job.Batches()
    ensures var order, end := Shuffle.EpochOrder(job.samples, job.seed, epoch, job.shuffle),
                              BatchCall(job, m, epoch, batch).end;
            end <= |order| && Visited(job, m, epoch, batch + 1) == order[..end]
  {
    hide Shuffle.EpochOrder, BatchCall, Executor.PositionGradient;
    var order := Shuffle.EpochOrder(job.samples, job.seed, epoch, job.shuffle);
    var call := BatchCall(job, m, epoch, batch);
    BatchIsPiece(job, m, epoch, batch);
    if batch == 0 {
      assert Visited(job, m, epoch, 0) == order[..call.begin];
    } else {
      VisitedUpTo(job, m, epoch, batch - 1);
    }
    assert order[..call.begin] + order[call.begin..call.end] == order[..call.end];
  }

  // ---------- pools ----------

  /** A pool of some size and everything its threads did up to the end of a call. */
  datatype Service<!G> = Service(c: Executor.Config<G>, schedule: seq<Executor.Move<G>>)

  ghost predicate Serves<M, V, G>(job: Job<M, V, G>, s: Service<G>, call: Executor.Call<G>) {
    && s.c.Valid() && s.c.sampleCount == job.samples && s.c.ar == job.ar
    && Executor.Runs(s.c, Executor.Initial(s.c), s.schedule)
    && var end := ExecutorTheorems.After(s.c, s.schedule);
       end.coordinator.Done? && end.call == call
  }

  ghost function Delivered<G>(s: Service<G>): Option<G> {
    if s.c.Valid() && Executor.Runs(s.c, Executor.Initial(s.c), s.schedule) then
      var pc := ExecutorTheorems.After(s.c, s.schedule).coordinator;
      if pc.Done? && pc.verdict.Success? then Some(pc.verdict.gradient) else None
    else
      None
  }

  /** Within one run an epoch and a batch occur once, so any history of pools and
      schedules is such a function of the situation. */
  ghost predicate Honest<M(!new), V, G(!new)>(job: Job<M, V, G>, pool: (M, nat, nat) -> Service<G>) {
    forall m: M, epoch: Word, batch: nat | batch < job.Batches() ::
      Serves(job, pool(m, epoch, batch), BatchCall(job, m, epoch, batch))
  }

  /** Training in which every batch takes what its pool delivered. */
  ghost function PooledEnv<M, V, G>(job: Job<M, V, G>, pool: (M, nat, nat) -> Service<G>): Env<M, V> {
    WithUpdate(job, (m: M, v: V, rate: real, epoch: nat, batch: nat) =>
      if epoch < MODULUS && batch < job.Batches()
      then Applied(job, m, v, rate, Delivered(pool(m, epoch, batch)))
      else None)
  }

  lemma ServedBatch<M, V, G>(job: Job<M, V, G>, s: Service<G>, m: M, epoch: Word, batch: nat)
    requires batch < job.Batches() && Serves(job, s, BatchCall(job, m, epoch, batch))
    ensures Delivered(s) == Executor.Sequential(job.ar, BatchCall(job, m, epoch, batch))
  {
    BatchesTileTheDataset(job.samples, job.batchSize, batch);
    assert Executor.Accepted(s.c, BatchCall(job, m, epoch, batch));
    ExecutorTheorems.BatchRefinesSequentialFold(s.c, s.schedule);
  }

  // ---------- equal updates, equal training ----------

  /** Two environments that differ at most in how their updates came about. */
  ghost predicate Agree<M(!new), V(!new)>(a: Env<M, V>, b: Env<M, V>) {
    && b == a.(update := b.update)
    && forall m: M, v: V, rate: real, epoch: nat, batch: nat ::
        a.update(m, v, rate, epoch, batch) == b.update(m, v, rate, epoch, batch)
  }

  lemma PoolsAgree<M(!new), V(!new), G(!new)>(job: Job<M, V, G>, pool: (M, nat, nat) -> Service<G>)
    requires Honest(job, pool)
    ensures Agree(PooledEnv(job, pool), SequentialEnv(job))
  {
    var a, b := PooledEnv(job, pool), SequentialEnv(job);
    forall m: M, v: V, rate: real, epoch: nat, batch: nat
      ensures a.update(m, v, rate, epoch, batch) == b.update(m, v, rate, epoch, batch)
    {
      if epoch < MODULUS && batch < job.Batches() {
        ServedBatch(job, pool(m, epoch, batch), m, epoch, batch);
      }
    }
  }

  lemma {:induction false} UpdatesAgree<M(!new), V(!new)>(a: Env<M, V>, b: Env<M, V>, m: M, v: V, rate: real,
                                                          epoch: nat, batch: nat)
    requires Agree(a, b)
    ensures Updates(a, m, v, rate, epoch, batch) == Updates(b, m, v, rate, epoch, batch)
    decreases a.batches - batch
  {
    if batch < a.batches {
      assert a.update(m, v, rate, epoch, batch) == b.update(m, v, rate, epoch, batch);
      match a.update(m, v, rate, epoch, batch) {
        case None =>
        case Some((next, moments)) => UpdatesAgree(a, b, next, moments, rate, epoch, batch + 1);
      }
    }
  }

  lemma NextEpochAgrees<M(!new), V(!new)>(a: Env<M, V>, b: Env<M, V>, r: Run<M, V>)
    requires Agree(a, b) && r.epoch < SIZE_MAX
    ensures NextEpoch(a, r) == NextEpoch(b, r)
  {
    UpdatesAgree(a, b, r.model, r.moments, r.control.rate, r.epoch, 0);
  }

  lemma {:induction false} LoopAgrees<M(!new), V(!new)>(a: Env<M, V>, b: Env<M, V>, r: Run<M, V>, target: Word)
    requires Agree(a, b) && r.epoch < target
    ensures Loop(a, r, target) == Loop(b, r, target)
    decreases target - r.epoch
  {
    NextEpochAgrees(a, b, r);
    match NextEpoch(a, r) {
      case None =>
      case Some(next) =>
        if Verdict(a, next, target).None? && r.epoch < next.epoch < target {
          LoopAgrees(a, b, next, target);
        }
    }
  }

  lemma TrainAgrees<M(!new), V(!new)>(a: Env<M, V>, b: Env<M, V>, r: Run<M, V>, target: Word)
    requires Agree(a, b)
    ensures Train(a, r, target) == Train(b, r, target)
  {
    if r.epoch < target && r.control.reason == NoReason {
      LoopAgrees(a, b, r, target);
    }
  }

  lemma {:induction false} RunAtAgrees<M(!new), V(!new)>(a: Env<M, V>, b: Env<M, V>, start: Run<M, V>, target: Word,
                                                         k: nat)
    requires Agree(a, b)
    ensures RunAt(a, start, target, k) == RunAt(b, start, target, k)
  {
    if k > 0 {
      RunAtAgrees(a, b, start, target, k - 1);
      match RunAt(a, start, target, k - 1) {
        case None =>
        case Some(r) => if r.epoch < target { NextEpochAgrees(a, b, r); }
      }
    }
  }

  lemma {:induction false} TrailAgrees<M(!new), V(!new)>(a: Env<M, V>, b: Env<M, V>, interval: Word, stop: nat -> bool,
                                                         r: Run<M, V>, target: Word)
    requires Agree(a, b) && r.epoch < target
    ensures TrailFrom(a, interval, stop, r, target) == TrailFrom(b, interval, stop, r, target)
    decreases target - r.epoch
  {
    NextEpochAgrees(a, b, r);
    match NextEpoch(a, r) {
      case None =>
      case Some(next) =>
        assert SavesOf(a, interval, stop, next, target) == SavesOf(b, interval, stop, next, target);
        if !stop(next.epoch) && Verdict(a, next, target).None? && r.epoch < next.epoch < target {
          TrailAgrees(a, b, interval, stop, next, target);
        }
    }
  }

  lemma TrailOfAgrees<M(!new), V(!new)>(a: Env<M, V>, b: Env<M, V>, interval: Word, stop: nat -> bool,
                                        r: Run<M, V>, target: Word)
    requires Agree(a, b)
    ensures TrailOf(a, interval, stop, r, target) == TrailOf(b, interval, stop, r, target)
  {
    TrainAgrees(a, b, r, target);
    if r.epoch < target {
      TrailAgrees(a, b, interval, stop, r, target);
    }
  }

  lemma PerformAgrees<M(!new), V(!new)>(a: Env<M, V>, b: Env<M, V>, disk: Disk<M, V>, trail: Trail<M, V>, target: Word)
    requires Agree(a, b)
    ensures Perform(a, disk, trail, target) == Perform(b, disk, trail, target)
  {
  }

  /** The same result and the same sequence of disk states. */
  lemma ExecuteAgrees<M(!new), V(!new)>(a: Env<M, V>, b: Env<M, V>, plan: Plan<M>, disk: Disk<M, V>, command: Command)
    requires Agree(a, b)
    ensures Execute(a, plan, disk, command) == Execute(b, plan, disk, command)
  {
    hide Perform, TrailOf;
    match command {
      case TrainFresh(stop) =>
        var start := Begin(a, plan.initial, 0, None);
        TrailOfAgrees(a, b, plan.interval, stop, start, plan.epochs);
        PerformAgrees(a, b, disk, TrailOf(a, plan.interval, stop, start, plan.epochs), plan.epochs);
      case Resume(stop) =>
        if disk.checkpoint.Some? {
          var ck := disk.checkpoint.value;
          TrailOfAgrees(a, b, plan.interval, stop, Restore(a, ck), ck.target);
          PerformAgrees(a, b, disk, TrailOf(a, plan.interval, stop, Restore(a, ck), ck.target), ck.target);
        }
      case TrainAdditional(count, stop) =>
        if disk.weights.Some? && count <= SIZE_MAX - disk.weights.value.completed
            && StartFrom(a, plan, disk.weights).Some? {
          var start: Run<M, V>, target := StartFrom(a, plan, disk.weights).value, disk.weights.value.completed + count;
          TrailOfAgrees(a, b, plan.interval, stop, start, target);
          PerformAgrees(a, b, disk, TrailOf(a, plan.interval, stop, start, target), target);
        }
    }
  }

  // ---------- the promise ----------

  /** The reference environment keeps what the training theorems ask for. */
  lemma SequentialEnvIsValid<M(!new), V(!new), G(!new)>(job: Job<M, V, G>)
    requires ValidJob(job)
    ensures ValidEnv(SequentialEnv(job))
  {
  }

  /** Whatever the thread counts and whatever the interleavings, training ends in
      the same run and for the same reason, or fails on all pools. */
  lemma TrainingIsDeterministic<M(!new), V(!new), G(!new)>(
    job: Job<M, V, G>, pool: (M, nat, nat) -> Service<G>, other: (M, nat, nat) -> Service<G>, start: Run<M, V>,
        target: Word)
    requires Honest(job, pool) && Honest(job, other)
    ensures Train(PooledEnv(job, pool), start, target) == Train(PooledEnv(job, other), start, target)
    ensures Train(PooledEnv(job, pool), start, target) == Train(SequentialEnv(job), start, target)
  {
    PoolsAgree(job, pool);
    PoolsAgree(job, other);
    TrainAgrees(PooledEnv(job, pool), SequentialEnv(job), start, target);
    TrainAgrees(PooledEnv(job, other), SequentialEnv(job), start, target);
  }

  /** A checkpoint written on one pool and resumed on another completes the
      unbroken run, exactly when the stale count was below patience. */
  lemma ResumeOnOtherPools<M(!new), V(!new), G(!new)>(
    job: Job<M, V, G>, pool: (M, nat, nat) -> Service<G>, other: (M, nat, nat) -> Service<G>, start: Run<M, V>,
    target: Word, k: nat)
    requires ValidJob(job) && Honest(job, pool) && Honest(job, other)
    requires Sound(SequentialEnv(job), start) && k > 0
    requires RunAt(PooledEnv(job, pool), start, target, k).Some?
    ensures var here, there := PooledEnv(job, pool), PooledEnv(job, other);
            var r := RunAt(here, start, target, k).value;
            SameOutcome(SequentialEnv(job), Train(here, start, target),
                        Train(there, Restore(there, Save(here, r, target)), target))
            <==> !(job.patience != 0 && r.stale >= job.patience)
  {
    var here, there, reference := PooledEnv(job, pool), PooledEnv(job, other), SequentialEnv(job);
    PoolsAgree(job, pool);
    PoolsAgree(job, other);
    RunAtAgrees(here, reference, start, target, k);
    var r := RunAt(here, start, target, k).value;
    TrainAgrees(here, reference, start, target);
    TrainAgrees(there, reference, Restore(there, Save(here, r, target)), target);
    SequentialEnvIsValid(job);
    ResumeEquivalence(reference, start, target, k);
  }

  /** A command, the point where it is cut, and the pools it runs on. */
  datatype Shift<!M, !G> = Shift(event: Event, pool: (M, nat, nat) -> Service<G>)

  ghost predicate AllHonest<M(!new), V, G(!new)>(job: Job<M, V, G>, shifts: seq<Shift<M, G>>) {
    forall i :: 0 <= i < |shifts| ==> Honest(job, shifts[i].pool)
  }

  ghost function Events<M, G>(shifts: seq<Shift<M, G>>): (events: seq<Event>)
    ensures |events| == |shifts|
  {
    seq(|shifts|, i requires 0 <= i < |shifts| => shifts[i].event)
  }

  ghost function PooledAfter<M, V, G>(job: Job<M, V, G>, plan: Plan<M>, disk: Disk<M, V>, shifts: seq<Shift<M, G>>)
    : Disk<M, V>
  {
    if shifts == [] then
      disk
    else
      var last := shifts[|shifts| - 1];
      Survivor(PooledEnv(job, last.pool), plan,
               PooledAfter(job, plan, disk, shifts[..|shifts| - 1]), last.event)
  }

  /** A whole campaign of commands and crashes, each on pools of its own, leaves
      the files that one thread would leave. */
  lemma {:induction false} CampaignIsDeterministic<M(!new), V(!new), G(!new)>(
    job: Job<M, V, G>, plan: Plan<M>, disk: Disk<M, V>, shifts: seq<Shift<M, G>>)
    requires AllHonest(job, shifts)
    ensures PooledAfter(job, plan, disk, shifts) == After(SequentialEnv(job), plan, disk, Events(shifts))
  {
    if shifts != [] {
      var n := |shifts| - 1;
      var last := shifts[n];
      CampaignIsDeterministic(job, plan, disk, shifts[..n]);
      assert Events(shifts)[..n] == Events(shifts[..n]);
      PoolsAgree(job, last.pool);
      ExecuteAgrees(PooledEnv(job, last.pool), SequentialEnv(job), plan, PooledAfter(job, plan, disk, shifts[..n]),
                    last.event.command);
    }
  }

  /** Any pools, any cuts, without early stopping: the campaign leaves a checkpoint
      for a target that one of its commands asked for. Resumed undisturbed on yet
      other pools, it finalizes one thread's training to the targets of the
      campaign, or fails exactly where that training fails. Only convergence
      controls can make resume refuse. */
  lemma AnyPoolsAnyCuts<M(!new), V(!new), G(!new)>(
    job: Job<M, V, G>, plan: Plan<M>, shifts: seq<Shift<M, G>>, pool: (M, nat, nat) -> Service<G>, stop: nat -> bool)
    returns (history: seq<Word>, targets: seq<Word>, origins: seq<nat>)
    requires ValidJob(job) && job.patience == 0 && 0 < plan.epochs
    requires AllHonest(job, shifts) && Honest(job, pool) && forall e :: !stop(e)
    requires PooledAfter(job, plan, Disk(None, None), shifts).checkpoint.Some?
    ensures var reference := SequentialEnv(job);
            var disk := PooledAfter(job, plan, Disk(None, None), shifts);
            var target := disk.checkpoint.value.target;
            var effect := Execute(PooledEnv(job, pool), plan, disk, Resume(stop));
            && Recovery.Recoverable(reference, plan, history, disk)
            && (targets == history || targets == history + [target])
            && targets != [] && targets[|targets| - 1] == target
            && Told(reference, plan, Events(shifts), targets, origins)
            && (!job.settings.CanConverge() ==> effect.result != Refused)
            && (effect.result != Refused ==> Completes(reference, plan, targets, effect))
  {
    var reference := SequentialEnv(job);
    var disk := PooledAfter(job, plan, Disk(None, None), shifts);
    SequentialEnvIsValid(job);
    CampaignIsDeterministic(job, plan, Disk(None, None), shifts);
    history, targets, origins := ResumeRecovers(reference, plan, Events(shifts), stop);
    PoolsAgree(job, pool);
    ExecuteAgrees(PooledEnv(job, pool), reference, plan, disk, Resume(stop));
    hide Perform, TrailOf, Told, Completes, Agree, PooledAfter;
    hide Recovery.Recoverable;
  }

  /** And what it completes are the files that the campaign's own finalizing
      commands, each run once to its end, make of an empty project on one thread. */
  lemma PoolsAndCutsLeaveNoTrace<M(!new), V(!new), G(!new)>(
    job: Job<M, V, G>, plan: Plan<M>, shifts: seq<Shift<M, G>>, pool: (M, nat, nat) -> Service<G>, stop: nat -> bool)
    returns (origins: seq<nat>, calm: seq<Event>)
    requires ValidJob(job) && job.patience == 0 && 0 < plan.epochs
    requires AllHonest(job, shifts) && Honest(job, pool) && forall e :: !stop(e)
    requires var disk := PooledAfter(job, plan, Disk(None, None), shifts);
             disk.checkpoint.Some? && Execute(PooledEnv(job, pool), plan, disk, Resume(stop)).result == Completed
    ensures |calm| == |origins| && Undisturbed(SequentialEnv(job), plan, calm)
    ensures forall i :: 0 <= i < |calm| ==>
                          origins[i] < |shifts| && calm[i].command == Calm(shifts[origins[i]].event.command)
    ensures forall i, j :: 0 <= i < j < |origins| ==> origins[i] < origins[j]
    ensures var disk := PooledAfter(job, plan, Disk(None, None), shifts);
            var states := Execute(PooledEnv(job, pool), plan, disk, Resume(stop)).states;
            states != [] && states[|states| - 1] == Left(SequentialEnv(job), plan, calm)
  {
    var reference := SequentialEnv(job);
    SequentialEnvIsValid(job);
    CampaignIsDeterministic(job, plan, Disk(None, None), shifts);
    PoolsAgree(job, pool);
    ExecuteAgrees(PooledEnv(job, pool), reference, plan, PooledAfter(job, plan, Disk(None, None), shifts),
                  Resume(stop));
    hide Execute, Undisturbed, Agree, PooledAfter;
    origins, calm := CrashesLeaveNoTrace(reference, plan, Events(shifts), stop);
  }

  // ---------- honest pools exist ----------

  lemma {:induction false} RunsAppend<G>(c: Executor.Config<G>, s: Executor.State<G>, schedule: seq<Executor.Move<G>>,
                                         m: Executor.Move<G>)
    requires c.Valid() && Executor.Runs(c, s, schedule)
    requires Executor.Enabled(c, Executor.Run(c, s, schedule), m)
    ensures Executor.Runs(c, s, schedule + [m])
    ensures Executor.Run(c, s, schedule + [m]) == Executor.Next(c, Executor.Run(c, s, schedule), m)
    decreases |schedule|
  {
    if schedule == [] {
      assert schedule + [m] == [m];
    } else {
      RunsAppend(c, Executor.Next(c, s, schedule[0]), schedule[1..], m);
      assert (schedule + [m])[1..] == schedule[1..] + [m];
    }
  }

  ghost predicate UnderWay<G>(pc: Executor.CoordinatorPc<G>) {
    Executor.InWave(pc) || pc.Finalizing? || pc.Done?
  }

  lemma MoveStaysInCall<G>(c: Executor.Config<G>, s: Executor.State<G>, m: Executor.Move<G>)
    requires c.Valid() && Executor.Enabled(c, s, m) && ExecutorTheorems.Regular(m) && UnderWay(s.coordinator)
    ensures Executor.Next(c, s, m).call == s.call && UnderWay(Executor.Next(c, s, m).coordinator)
  {
  }

  /** A call that has begun can be run to its end. */
  lemma {:induction false} CallCanFinish<G>(c: Executor.Config<G>, schedule: seq<Executor.Move<G>>)
    returns (whole: seq<Executor.Move<G>>)
    requires c.Valid() && Executor.Runs(c, Executor.Initial(c), schedule)
    requires UnderWay(ExecutorTheorems.After(c, schedule).coordinator)
    requires ExecutorSafety.Inv(c, ExecutorTheorems.After(c, schedule))
    ensures Executor.Runs(c, Executor.Initial(c), whole)
    ensures ExecutorTheorems.After(c, whole).coordinator.Done?
    ensures ExecutorTheorems.After(c, whole).call == ExecutorTheorems.After(c, schedule).call
    decreases ExecutorTheorems.Rank(c, ExecutorTheorems.After(c, schedule))
  {
    var s := ExecutorTheorems.After(c, schedule);
    if s.coordinator.Done? {
      return schedule;
    }
    ExecutorTheorems.NeverStuck(c, schedule);
    var m :| ExecutorTheorems.Regular(m) && Executor.Enabled(c, s, m);
    RunsAppend(c, Executor.Initial(c), schedule, m);
    ExecutorSafety.MoveKeepsInv(c, s, m);
    ExecutorTheorems.RegularMoveRanks(c, s, m);
    MoveStaysInCall(c, s, m);
    whole := CallCanFinish(c, schedule + [m]);
  }

  lemma AnyCallCanFinish<G>(c: Executor.Config<G>, call: Executor.Call<G>) returns (schedule: seq<Executor.Move<G>>)
    requires c.Valid()
    ensures Executor.Runs(c, Executor.Initial(c), schedule)
    ensures ExecutorTheorems.After(c, schedule).coordinator.Done? && ExecutorTheorems.After(c, schedule).call == call
  {
    var start := Executor.Initial(c);
    var begin: Executor.Move<G> := Executor.NewCall(call);
    RunsAppend(c, start, [], begin);
    ExecutorSafety.InitialInv(c);
    ExecutorSafety.MoveKeepsInv(c, start, begin);
    assert [] + [begin] == [begin];
    hide ExecutorSafety.Inv;
    schedule := CallCanFinish(c, [begin]);
  }

  ghost predicate ServesWith<M, V, G>(job: Job<M, V, G>, threads: nat, s: Service<G>, call: Executor.Call<G>) {
    s.c.threads == threads && Serves(job, s, call)
  }

  lemma EveryBatchCanBeServed<M, V, G>(job: Job<M, V, G>, threads: nat, m: M, epoch: Word, batch: nat)
    requires threads > 0 && batch < job.Batches()
    ensures exists s :: ServesWith(job, threads, s, BatchCall(job, m, epoch, batch))
  {
    var c := Executor.Config(threads, job.samples, job.ar);
    var whole := AnyCallCanFinish(c, BatchCall(job, m, epoch, batch));
    assert ServesWith(job, threads, Service(c, whole), BatchCall(job, m, epoch, batch));
  }

  ghost function ServiceFor<M, V, G>(job: Job<M, V, G>, threads: nat, m: M, epoch: nat, batch: nat): (s: Service<G>)
    requires threads > 0
    ensures epoch < MODULUS && batch < job.Batches() ==>
              ServesWith(job, threads, s, BatchCall(job, m, epoch, batch))
  {
    if epoch < MODULUS && batch < job.Batches() then
      EveryBatchCanBeServed(job, threads, m, epoch, batch);
      var s :| ServesWith(job, threads, s, BatchCall(job, m, epoch, batch));
      s
    else
      Service(Executor.Config(threads, job.samples, job.ar), [])
  }

  /** Pools of every size can serve every batch of every run: the theorems above
      speak of something. */
  lemma HonestPoolsExist<M(!new), V, G(!new)>(job: Job<M, V, G>, threads: nat)
    returns (pool: (M, nat, nat) -> Service<G>)
    requires threads > 0
    ensures Honest(job, pool)
    ensures forall m: M, epoch: Word, batch: nat | batch < job.Batches() :: pool(m, epoch, batch).c.threads == threads
  {
    pool := (m: M, epoch: nat, batch: nat) => ServiceFor(job, threads, m, epoch, batch);
  }
}
