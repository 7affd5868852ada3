/** What every schedule keeps, and the verdict it can reach. */
module ExecutorSafety {
  import opened Options
  import opened Plans
  import opened Accumulator
  import opened Executor

  ghost predicate Dispatching<G>(pc: CoordinatorPc<G>) {
    pc.Assigning? || pc.Broadcast? || pc.CheckPending? || pc.WaitComplete? || pc.WakeComplete?
  }

  ghost predicate OwnsMutex<G>(pc: CoordinatorPc<G>) {
    pc.Assigning? || pc.Broadcast? || pc.CheckPending? || pc.StopBroadcast?
  }

  ghost predicate ShuttingDown<G>(pc: CoordinatorPc<G>) {
    pc.StopBroadcast? || pc.Joining? || pc.Stopped?
  }

  /** The coordinator's program counter fits the call it works on. */
  ghost predicate PlaceOk<G>(c: Config<G>, call: Call<G>, pc: CoordinatorPc<G>)
    requires c.Valid()
  {
    && (InWave(pc) || pc.Finalizing? ==> Accepted(c, call))
    && (InWave(pc) ==> pc.wave < PlanOf(c, call).waves)
    && (pc.Assigning? || pc.Adding? ==> pc.k <= WaveSize(c, call, pc.wave))
  }

  /** How many workers of the current wave have been given their task. */
  ghost function Dispatched<G>(c: Config<G>, call: Call<G>, pc: CoordinatorPc<G>): nat
    requires c.Valid() && PlaceOk(c, call, pc)
  {
    if pc.Assigning? then pc.k
    else if Dispatching(pc) || pc.Collect? || pc.Adding? then WaveSize(c, call, pc.wave)
    else 0
  }

  ghost function Undispatched<G>(c: Config<G>, call: Call<G>, pc: CoordinatorPc<G>): nat
    requires c.Valid() && PlaceOk(c, call, pc)
  {
    if pc.Assigning? then WaveSize(c, call, pc.wave) - pc.k else 0
  }

  ghost predicate ResultOk<G>(call: Call<G>, w: Worker<G>) {
    match PositionGradient(call, w.logical)
    case None => !w.success
    case Some(g) => w.success && w.buffer == g
  }

  /** A dispatched worker works on its own position, and once it is no longer
      assigned or computing its result slots hold that position's result. */
  ghost predicate TaskOk<G>(c: Config<G>, call: Call<G>, pc: CoordinatorPc<G>, i: nat, w: Worker<G>)
    requires c.Valid() && PlaceOk(c, call, pc) && i < Dispatched(c, call, pc)
  {
    && w.logical == WaveBegin(c, call, pc.wave) + i
    && Lookup(call, w.logical) == Some(w.sample)
    && (w.pc.Computing? ==> w.pc.task == w.sample)
    && (!w.hasTask && !w.pc.Computing? ==> ResultOk(call, w))
  }

  ghost predicate WorkerOk<G>(c: Config<G>, call: Call<G>, pc: CoordinatorPc<G>, stopping: bool,
                              i: nat, w: Worker<G>)
    requires c.Valid() && PlaceOk(c, call, pc)
  {
    && (w.hasTask ==> w.pc.Locking? || w.pc.Checking? || w.pc.Waiting?)
    && (w.pc.Waiting? && w.hasTask ==> pc.Assigning? || pc.Broadcast?)
    && (w.pc.Waiting? && stopping ==> pc.StopBroadcast?)
    && (w.pc.Exited? ==> stopping)
    && (Busy(w) ==> Dispatching(pc) && i < Dispatched(c, call, pc))
    && (i < Dispatched(c, call, pc) ==> TaskOk(c, call, pc, i, w))
  }

  ghost predicate OwnerOk<G>(s: State<G>) {
    && (s.owner.ByCoordinator? <==> OwnsMutex(s.coordinator))
    && (s.owner.ByWorker? ==> s.owner.worker < |s.workers|)
    && forall i :: 0 <= i < |s.workers| ==>
         (s.owner == ByWorker(i) <==> s.workers[i].pc.Checking? || s.workers[i].pc.Reporting?)
  }

  ghost predicate FoldOk<G>(c: Config<G>, s: State<G>, succeeded: nat, added: nat)
  {
    && added <= succeeded
    && AllSucceed(s.call, succeeded)
    && Holds(c.ar, s.acc, s.call.begin, s.call.end, Gradients(s.call, added))
  }

  /** The accumulator holds the ordered fold of every earlier wave. */
  ghost predicate AccOk<G>(c: Config<G>, s: State<G>)
    requires c.Valid() && PlaceOk(c, s.call, s.coordinator)
  {
    var pc := s.coordinator;
    if pc.Adding? then
      var begin := WaveBegin(c, s.call, pc.wave);
      FoldOk(c, s, begin + WaveSize(c, s.call, pc.wave), begin + pc.k)
    else if InWave(pc) then
      FoldOk(c, s, WaveBegin(c, s.call, pc.wave), WaveBegin(c, s.call, pc.wave))
    else if pc.Finalizing? then
      FoldOk(c, s, s.call.end, s.call.end)
    else
      pc.Done? ==> VerdictOk(c, s.call, pc.verdict)
  }

  ghost predicate InWaveAt<G>(c: Config<G>, call: Call<G>, wave: nat, p: nat)
    requires c.Valid() && Accepted(c, call)
  {
    && wave < PlanOf(c, call).waves
    && WaveBegin(c, call, wave) <= p < WaveBegin(c, call, wave) + WaveSize(c, call, wave)
  }

  /** One thread gets past every position below p. */
  ghost predicate Folds<G>(c: Config<G>, call: Call<G>, p: nat) {
    AllSucceed(call, p) && Fold(c.ar, Gradients(call, p)).Some?
  }

  /** A wave is reported for its first failing sample after the earlier waves were added. */
  ghost predicate SampleFailsIn<G>(c: Config<G>, call: Call<G>, wave: nat, p: nat)
    requires c.Valid() && Accepted(c, call)
  {
    && InWaveAt(c, call, wave, p) && Folds(c, call, WaveBegin(c, call, wave))
    && PositionGradient(call, p).None? && AllSucceed(call, p)
  }

  /** A sum is reported only in a wave whose samples all succeeded. */
  ghost predicate AddFailsIn<G>(c: Config<G>, call: Call<G>, wave: nat, p: nat)
    requires c.Valid() && Accepted(c, call)
  {
    && InWaveAt(c, call, wave, p) && AllSucceed(call, WaveBegin(c, call, wave) + WaveSize(c, call, wave))
    && Folds(c, call, p) && AllSucceed(call, p + 1) && Fold(c.ar, Gradients(call, p + 1)).None?
  }

  /** What a verdict says about the call, without mentioning any worker. */
  ghost predicate VerdictOk<G>(c: Config<G>, call: Call<G>, verdict: Verdict<G>)
    requires c.Valid()
  {
    match verdict
    case BadRange => !Accepted(c, call)
    case LookupFailed(_) => false
    case SampleFailed(p) => Accepted(c, call) && exists wave :: SampleFailsIn(c, call, wave, p)
    case AddFailed(p) => Accepted(c, call) && exists wave :: AddFailsIn(c, call, wave, p)
    case FinishFailed => Accepted(c, call) && Folds(c, call, call.end) && Mean(c.ar, Gradients(call, call.end)).None?
    case Success(g) => Accepted(c, call) && Sequential(c.ar, call) == Some(g)
  }

  ghost predicate Inv<G>(c: Config<G>, s: State<G>)
    requires c.Valid()
  {
    && |s.workers| == c.WorkerCount()
    && PlaceOk(c, s.call, s.coordinator)
    && OwnerOk(s)
    && (s.stopping <==> ShuttingDown(s.coordinator))
    && s.pending == BusyCount(s.workers) + Undispatched(c, s.call, s.coordinator)
    && (!Dispatching(s.coordinator) ==> s.pending == 0)
    && (s.coordinator.WaitComplete? ==> s.pending > 0)
    && (s.coordinator.Joining? ==>
          s.coordinator.k <= |s.workers| && forall i :: 0 <= i < s.coordinator.k ==> s.workers[i].pc.Exited?)
    && (s.coordinator.Stopped? ==> forall i :: 0 <= i < |s.workers| ==> s.workers[i].pc.Exited?)
    && (forall i :: 0 <= i < |s.workers| ==>
          WorkerOk(c, s.call, s.coordinator, s.stopping, i, s.workers[i]))
    && AccOk(c, s)
  }

  lemma InitialInv<G>(c: Config<G>)
    requires c.Valid()
    ensures Inv(c, Initial(c))
  {
    SumByZero(Initial(c).workers, BusyOne);
  }

  lemma IdleMeansNoneBusy<G>(c: Config<G>, s: State<G>)
    requires c.Valid() && Inv(c, s) && s.pending == 0
    ensures forall i :: 0 <= i < |s.workers| ==> !Busy(s.workers[i])
  {
    SumByZero(s.workers, BusyOne);
    forall i | 0 <= i < |s.workers|
      ensures !Busy(s.workers[i])
    {
      assert BusyOne(s.workers[i]) == 0;
    }
  }

  // ---------- one worker moves ----------

  lemma WorkerKeepsInv<G>(c: Config<G>, s: State<G>, i: nat)
    requires c.Valid() && Inv(c, s)
    requires i < |s.workers| && WorkerEnabled(s, s.workers[i].pc)
    ensures Inv(c, WorkerNext(s, i))
  {
    match s.workers[i].pc
    case Checking => WorkerChecks(c, s, i);
    case Computing(task) => WorkerComputes(c, s, i);
    case Reporting => WorkerReports(c, s, i);
    case _ => WorkerLocks(c, s, i);
  }

  lemma WorkerLocks<G>(c: Config<G>, s: State<G>, i: nat)
    requires c.Valid() && Inv(c, s)
    requires i < |s.workers| && s.owner.Free? && (s.workers[i].pc.Locking? || s.workers[i].pc.Finished?)
    ensures Inv(c, WorkerNext(s, i))
  {
    assert WorkerOk(c, s.call, s.coordinator, s.stopping, i, s.workers[i]);
    WorkerChanges(c, s, WorkerNext(s, i), i);
  }

  lemma WorkerChecks<G>(c: Config<G>, s: State<G>, i: nat)
    requires c.Valid() && Inv(c, s)
    requires i < |s.workers| && s.workers[i].pc.Checking?
    ensures Inv(c, WorkerNext(s, i))
  {
    assert WorkerOk(c, s.call, s.coordinator, s.stopping, i, s.workers[i]);
    assert s.owner == ByWorker(i);
    if s.stopping {
      assert !Dispatching(s.coordinator);
    }
    WorkerChanges(c, s, WorkerNext(s, i), i);
  }

  lemma WorkerComputes<G>(c: Config<G>, s: State<G>, i: nat)
    requires c.Valid() && Inv(c, s)
    requires i < |s.workers| && s.workers[i].pc.Computing?
    ensures Inv(c, WorkerNext(s, i))
  {
    var w := s.workers[i];
    assert WorkerOk(c, s.call, s.coordinator, s.stopping, i, w);
    assert PositionGradient(s.call, w.logical) == s.call.sample(w.pc.task);
    WorkerChanges(c, s, WorkerNext(s, i), i);
  }

  /** A move that touches one worker and the mutex, and keeps it busy or idle. */
  lemma WorkerChanges<G>(c: Config<G>, s: State<G>, t: State<G>, i: nat)
    requires c.Valid() && Inv(c, s) && i < |s.workers|
    requires |t.workers| == |s.workers| && t == s.(owner := t.owner, workers := s.workers[i := t.workers[i]])
    requires Busy(t.workers[i]) == Busy(s.workers[i])
    requires s.workers[i].pc.Exited? ==> t.workers[i].pc.Exited?
    requires OwnerOk(t)
    requires WorkerOk(c, t.call, t.coordinator, t.stopping, i, t.workers[i])
    ensures Inv(c, t)
  {
    hide PlanOf, WaveBegin, WaveSize;
    SumByUpdate(s.workers, BusyOne, i, t.workers[i]);
    forall j | 0 <= j < |t.workers|
      ensures WorkerOk(c, t.call, t.coordinator, t.stopping, j, t.workers[j])
    {
      if j != i {
        assert WorkerOk(c, s.call, s.coordinator, s.stopping, j, s.workers[j]);
      }
    }
  }

  lemma WorkerReports<G>(c: Config<G>, s: State<G>, i: nat)
    requires c.Valid() && Inv(c, s)
    requires i < |s.workers| && s.workers[i].pc.Reporting?
    ensures Inv(c, WorkerNext(s, i))
  {
    hide PlanOf, WaveBegin, WaveSize;
    var w, t := s.workers[i], WorkerNext(s, i);
    assert WorkerOk(c, s.call, s.coordinator, s.stopping, i, w);
    SumByUpdate(s.workers, BusyOne, i, w.(pc := Checking));
    assert BusyOne(w) == 1;
    forall j | 0 <= j < |t.workers|
      ensures WorkerOk(c, t.call, t.coordinator, t.stopping, j, t.workers[j])
    {
      assert WorkerOk(c, s.call, s.coordinator, s.stopping, j, s.workers[j]);
    }
  }

  // ---------- the coordinator moves ----------

  lemma StartsWave<G>(c: Config<G>, s: State<G>)
    requires c.Valid() && Inv(c, s) && s.coordinator.WaveLock? && s.owner.Free?
    ensures Inv(c, CallNext(c, s))
  {
    var t := CallNext(c, s);
    IdleMeansNoneBusy(c, s);
    assert OwnerOk(t);
    forall i | 0 <= i < |t.workers|
      ensures WorkerOk(c, t.call, t.coordinator, t.stopping, i, t.workers[i])
    {
      assert WorkerOk(c, s.call, s.coordinator, s.stopping, i, s.workers[i]);
    }
  }

  lemma AssignsTask<G>(c: Config<G>, s: State<G>)
    requires c.Valid() && Inv(c, s) && s.coordinator.Assigning?
    requires s.coordinator.k < WaveSize(c, s.call, s.coordinator.wave)
    ensures Lookup(s.call, WaveBegin(c, s.call, s.coordinator.wave) + s.coordinator.k).Some?
    ensures Inv(c, CallNext(c, s))
  {
    hide PlanOf, WaveBegin, WaveSize;
    var t, k := CallNext(c, s), s.coordinator.k;
    assert WorkerOk(c, s.call, s.coordinator, s.stopping, k, s.workers[k]);
    assert !Busy(s.workers[k]);
    assert t.workers == s.workers[k := t.workers[k]];
    SumByUpdate(s.workers, BusyOne, k, t.workers[k]);
    assert OwnerOk(t);
    forall i | 0 <= i < |t.workers|
      ensures WorkerOk(c, t.call, t.coordinator, t.stopping, i, t.workers[i])
    {
      assert WorkerOk(c, s.call, s.coordinator, s.stopping, i, s.workers[i]);
    }
  }

  lemma EndsAssigning<G>(c: Config<G>, s: State<G>)
    requires c.Valid() && Inv(c, s) && s.coordinator.Assigning?
    requires s.coordinator.k == WaveSize(c, s.call, s.coordinator.wave)
    ensures Inv(c, CallNext(c, s))
  {
    var t := CallNext(c, s);
    forall i | 0 <= i < |t.workers|
      ensures WorkerOk(c, t.call, t.coordinator, t.stopping, i, t.workers[i])
    {
      assert WorkerOk(c, s.call, s.coordinator, s.stopping, i, s.workers[i]);
    }
  }

  lemma Broadcasts<G>(c: Config<G>, s: State<G>)
    requires c.Valid() && Inv(c, s) && s.coordinator.Broadcast?
    ensures Inv(c, CallNext(c, s))
  {
    hide PlanOf, WaveBegin, WaveSize;
    var t := CallNext(c, s);
    WakingKeepsBusy(s.workers);
    assert OwnerOk(t);
    forall i | 0 <= i < |t.workers|
      ensures WorkerOk(c, t.call, t.coordinator, t.stopping, i, t.workers[i])
    {
      assert WorkerOk(c, s.call, s.coordinator, s.stopping, i, s.workers[i]);
    }
  }

  lemma ChecksPending<G>(c: Config<G>, s: State<G>)
    requires c.Valid() && Inv(c, s) && s.coordinator.CheckPending?
    ensures Inv(c, CallNext(c, s))
  {
    var t := CallNext(c, s);
    if s.pending == 0 {
      IdleMeansNoneBusy(c, s);
    }
    assert OwnerOk(t);
    forall i | 0 <= i < |t.workers|
      ensures WorkerOk(c, t.call, t.coordinator, t.stopping, i, t.workers[i])
    {
      assert WorkerOk(c, s.call, s.coordinator, s.stopping, i, s.workers[i]);
    }
  }

  lemma TakesMutexBack<G>(c: Config<G>, s: State<G>)
    requires c.Valid() && Inv(c, s) && s.coordinator.WakeComplete? && s.owner.Free?
    ensures Inv(c, CallNext(c, s))
  {
    var t := CallNext(c, s);
    assert OwnerOk(t);
    forall i | 0 <= i < |t.workers|
      ensures WorkerOk(c, t.call, t.coordinator, t.stopping, i, t.workers[i])
    {
      assert WorkerOk(c, s.call, s.coordinator, s.stopping, i, s.workers[i]);
    }
  }

  lemma WakingKeepsBusy<G>(workers: seq<Worker<G>>)
    ensures BusyCount(WakeAll(workers)) == BusyCount(workers)
  {
    SumByGrows(workers, WakeAll(workers), BusyOne, 0);
  }

  /** Between waves only the coordinator's place and the accumulator change. */
  lemma AfterWave<G>(c: Config<G>, s: State<G>, t: State<G>)
    requires c.Valid() && Inv(c, s)
    requires s.coordinator.Collect? || s.coordinator.Adding? || s.coordinator.Finalizing?
    requires t == s.(coordinator := t.coordinator, acc := t.acc)
    requires t.coordinator.Done? || t.coordinator.WaveLock? || t.coordinator.Finalizing?
          || (t.coordinator.Adding? && InWave(s.coordinator) && t.coordinator.wave == s.coordinator.wave)
    requires PlaceOk(c, t.call, t.coordinator) && AccOk(c, t)
    ensures Inv(c, t)
  {
    hide PlanOf, WaveBegin, WaveSize;
    IdleMeansNoneBusy(c, s);
    forall i | 0 <= i < |t.workers|
      ensures WorkerOk(c, t.call, t.coordinator, t.stopping, i, t.workers[i])
    {
      assert WorkerOk(c, s.call, s.coordinator, s.stopping, i, s.workers[i]);
    }
  }

  lemma SlotsHoldResults<G>(c: Config<G>, s: State<G>, i: nat)
    requires c.Valid() && Inv(c, s) && (s.coordinator.Collect? || s.coordinator.Adding?)
    requires i < WaveSize(c, s.call, s.coordinator.wave)
    ensures s.workers[i].logical == WaveBegin(c, s.call, s.coordinator.wave) + i
    ensures ResultOk(s.call, s.workers[i])
  {
    IdleMeansNoneBusy(c, s);
    assert WorkerOk(c, s.call, s.coordinator, s.stopping, i, s.workers[i]);
  }

  /** After a complete wave the result slots decide: the first failing slot is
      the first failing position of the call. */
  lemma WaveVerdict<G>(c: Config<G>, s: State<G>)
    requires c.Valid() && Inv(c, s) && s.coordinator.Collect?
    ensures var begin, size := WaveBegin(c, s.call, s.coordinator.wave), WaveSize(c, s.call, s.coordinator.wave);
            match FirstFailure(s.workers, size)
            case None => AllSucceed(s.call, begin + size)
            case Some(i) => s.workers[i].logical == begin + i
                            && PositionGradient(s.call, begin + i).None? && AllSucceed(s.call, begin + i)
  {
    hide PlanOf, WaveBegin, WaveSize;
    var begin, size := WaveBegin(c, s.call, s.coordinator.wave), WaveSize(c, s.call, s.coordinator.wave);
    var failure := FirstFailure(s.workers, size);
    var bound := if failure.Some? then failure.value else size;
    if failure.Some? {
      SlotsHoldResults(c, s, bound);
    }
    assert AllSucceed(s.call, begin);
    forall p | s.call.begin <= p < begin + bound
      ensures PositionGradient(s.call, p).Some?
    {
      if p >= begin {
        SlotsHoldResults(c, s, p - begin);
      }
    }
  }

  lemma Collects<G>(c: Config<G>, s: State<G>)
    requires c.Valid() && Inv(c, s) && s.coordinator.Collect?
    ensures Inv(c, CallNext(c, s))
  {
    hide PlanOf, WaveBegin, WaveSize;
    WaveVerdict(c, s);
    assert AccOk(c, s);
    var w := s.coordinator.wave;
    assert Folds(c, s.call, WaveBegin(c, s.call, w));
    match FirstFailure(s.workers, WaveSize(c, s.call, w)) {
      case None =>
      case Some(i) => assert SampleFailsIn(c, s.call, w, s.workers[i].logical);
    }
    AfterWave(c, s, CallNext(c, s));
  }

  lemma AddsOne<G>(c: Config<G>, s: State<G>)
    requires c.Valid() && Inv(c, s) && s.coordinator.Adding?
    requires s.coordinator.k < WaveSize(c, s.call, s.coordinator.wave)
    ensures Inv(c, CallNext(c, s))
  {
    hide PlanOf, WaveBegin, WaveSize;
    var t, w, k := CallNext(c, s), s.coordinator.wave, s.coordinator.k;
    var begin := WaveBegin(c, s.call, w);
    SlotsHoldResults(c, s, k);
    assert AccOk(c, s);
    AddsToFold(c, s, begin + WaveSize(c, s.call, w), begin + k, s.workers[k]);
    if t.coordinator.Done? {
      assert AddFailsIn(c, s.call, w, begin + k);
    }
    assert AccOk(c, t);
    AfterWave(c, s, t);
  }

  lemma AddsToFold<G>(c: Config<G>, s: State<G>, succeeded: nat, p: nat, w: Worker<G>)
    requires FoldOk(c, s, succeeded, p) && s.call.begin <= p < succeeded <= s.call.end
    requires w.logical == p && ResultOk(s.call, w)
    ensures match Add(c.ar, s.acc, w.logical, w.buffer)
            case Some(acc) => FoldOk(c, s.(acc := acc), succeeded, p + 1)
            case None => AllSucceed(s.call, p + 1) && Fold(c.ar, Gradients(s.call, p + 1)).None?
  {
    assert PositionGradient(s.call, p) == Some(w.buffer);
    AddExtends(c.ar, s.acc, s.call.begin, s.call.end, Gradients(s.call, p), w.buffer);
    assert Gradients(s.call, p + 1) == Gradients(s.call, p) + [w.buffer];
  }

  lemma EndsAdding<G>(c: Config<G>, s: State<G>)
    requires c.Valid() && Inv(c, s) && s.coordinator.Adding?
    requires s.coordinator.k == WaveSize(c, s.call, s.coordinator.wave)
    ensures Inv(c, CallNext(c, s))
  {
    assert AccOk(c, s);
    WaveIsFolded(c, s, CallNext(c, s));
    AfterWave(c, s, CallNext(c, s));
  }

  lemma WaveIsFolded<G>(c: Config<G>, s: State<G>, t: State<G>)
    requires c.Valid() && PlaceOk(c, s.call, s.coordinator) && s.coordinator.Adding? && AccOk(c, s)
    requires InCall(c, s) && t == CallNext(c, s)
    requires s.coordinator.k == WaveSize(c, s.call, s.coordinator.wave)
    ensures PlaceOk(c, t.call, t.coordinator) && AccOk(c, t)
    ensures t.coordinator.WaveLock? || t.coordinator.Finalizing?
  {
    var w := s.coordinator.wave;
    WavesChain(c, s.call, w);
    var end := WaveBegin(c, s.call, w) + WaveSize(c, s.call, w);
    assert FoldOk(c, s, end, end);
    assert FoldOk(c, t, end, end);
  }

  lemma Finalizes<G>(c: Config<G>, s: State<G>)
    requires c.Valid() && Inv(c, s) && s.coordinator.Finalizing?
    ensures Inv(c, CallNext(c, s))
  {
    assert AccOk(c, s);
    FinalizeIsMean(c.ar, s.acc, s.call.begin, s.call.end, Gradients(s.call, s.call.end));
    AfterWave(c, s, CallNext(c, s));
  }

  lemma LocksToStop<G>(c: Config<G>, s: State<G>)
    requires c.Valid() && Inv(c, s) && s.coordinator.StopLock? && s.owner.Free?
    ensures Inv(c, CoordinatorNext(c, s))
  {
    var t := CoordinatorNext(c, s);
    assert OwnerOk(t);
    forall i | 0 <= i < |t.workers|
      ensures WorkerOk(c, t.call, t.coordinator, t.stopping, i, t.workers[i])
    {
      assert WorkerOk(c, s.call, s.coordinator, s.stopping, i, s.workers[i]);
    }
  }

  lemma BroadcastsStop<G>(c: Config<G>, s: State<G>)
    requires c.Valid() && Inv(c, s) && s.coordinator.StopBroadcast?
    ensures Inv(c, CoordinatorNext(c, s))
  {
    var t := CoordinatorNext(c, s);
    WakingKeepsBusy(s.workers);
    assert OwnerOk(t);
    forall i | 0 <= i < |t.workers|
      ensures WorkerOk(c, t.call, t.coordinator, t.stopping, i, t.workers[i])
    {
      assert WorkerOk(c, s.call, s.coordinator, s.stopping, i, s.workers[i]);
    }
  }

  lemma Joins<G>(c: Config<G>, s: State<G>)
    requires c.Valid() && Inv(c, s) && s.coordinator.Joining? && CoordinatorEnabled(s)
    ensures Inv(c, CoordinatorNext(c, s))
  {
    var t := CoordinatorNext(c, s);
    forall i | 0 <= i < |t.workers|
      ensures WorkerOk(c, t.call, t.coordinator, t.stopping, i, t.workers[i])
    {
      assert WorkerOk(c, s.call, s.coordinator, s.stopping, i, s.workers[i]);
    }
  }

  lemma CallMoveKeepsInv<G>(c: Config<G>, s: State<G>)
    requires c.Valid() && Inv(c, s) && CoordinatorEnabled(s)
    requires InWave(s.coordinator) || s.coordinator.Finalizing?
    ensures InCall(c, s) && Inv(c, CallNext(c, s))
  {
    match s.coordinator
    case WaveLock(_) => StartsWave(c, s);
    case Assigning(w, k) =>
      if k < WaveSize(c, s.call, w) {
        AssignsTask(c, s);
      } else {
        EndsAssigning(c, s);
      }
    case Broadcast(_) => Broadcasts(c, s);
    case CheckPending(_) => ChecksPending(c, s);
    case WakeComplete(_) => TakesMutexBack(c, s);
    case Collect(_) => Collects(c, s);
    case Adding(w, k) =>
      if k < WaveSize(c, s.call, w) {
        AddsOne(c, s);
      } else {
        EndsAdding(c, s);
      }
    case Finalizing => Finalizes(c, s);
    case _ =>
  }

  lemma CoordinatorKeepsInv<G>(c: Config<G>, s: State<G>)
    requires c.Valid() && Inv(c, s) && CoordinatorEnabled(s)
    ensures Inv(c, CoordinatorNext(c, s))
  {
    match s.coordinator
    case StopLock => LocksToStop(c, s);
    case StopBroadcast => BroadcastsStop(c, s);
    case Joining(_) => Joins(c, s);
    case _ => CallMoveKeepsInv(c, s);
  }

  // ---------- calls, stop requests and spurious wake-ups ----------

  lemma BeginCallKeepsInv<G>(c: Config<G>, s: State<G>, call: Call<G>)
    requires c.Valid() && Inv(c, s) && (s.coordinator.Idle? || s.coordinator.Done?)
    ensures Inv(c, BeginCall(c, s, call))
  {
    var t := BeginCall(c, s, call);
    IdleMeansNoneBusy(c, s);
    if Accepted(c, call) {
      ResetHolds(c.ar, s.acc, call.begin, call.end);
      WavesChain(c, call, 0);
      assert Gradients(call, call.begin) == [];
    }
    assert PlaceOk(c, t.call, t.coordinator);
    forall i | 0 <= i < |t.workers|
      ensures WorkerOk(c, t.call, t.coordinator, t.stopping, i, t.workers[i])
    {
      assert WorkerOk(c, s.call, s.coordinator, s.stopping, i, s.workers[i]);
    }
  }

  lemma StopKeepsInv<G>(c: Config<G>, s: State<G>)
    requires c.Valid() && Inv(c, s) && (s.coordinator.Idle? || s.coordinator.Done?)
    ensures Inv(c, s.(coordinator := StopLock))
  {
    var t := s.(coordinator := StopLock);
    IdleMeansNoneBusy(c, s);
    forall i | 0 <= i < |t.workers|
      ensures WorkerOk(c, t.call, t.coordinator, t.stopping, i, t.workers[i])
    {
      assert WorkerOk(c, s.call, s.coordinator, s.stopping, i, s.workers[i]);
    }
  }

  lemma SpuriousCoordinatorKeepsInv<G>(c: Config<G>, s: State<G>)
    requires c.Valid() && Inv(c, s) && s.coordinator.WaitComplete?
    ensures Inv(c, s.(coordinator := WakeComplete(s.coordinator.wave)))
  {
    var t := s.(coordinator := WakeComplete(s.coordinator.wave));
    forall i | 0 <= i < |t.workers|
      ensures WorkerOk(c, t.call, t.coordinator, t.stopping, i, t.workers[i])
    {
      assert WorkerOk(c, s.call, s.coordinator, s.stopping, i, s.workers[i]);
    }
  }

  lemma SpuriousWorkerKeepsInv<G>(c: Config<G>, s: State<G>, i: nat)
    requires c.Valid() && Inv(c, s) && i < |s.workers| && s.workers[i].pc.Waiting?
    ensures Inv(c, s.(workers := s.workers[i := s.workers[i].(pc := Locking)]))
  {
    assert WorkerOk(c, s.call, s.coordinator, s.stopping, i, s.workers[i]);
    WorkerChanges(c, s, s.(workers := s.workers[i := s.workers[i].(pc := Locking)]), i);
  }

  lemma MoveKeepsInv<G>(c: Config<G>, s: State<G>, m: Move<G>)
    requires c.Valid() && Inv(c, s) && Enabled(c, s, m)
    ensures Inv(c, Next(c, s, m))
  {
    match m
    case NewCall(call) => BeginCallKeepsInv(c, s, call);
    case Stop => StopKeepsInv(c, s);
    case CoordinatorMove => CoordinatorKeepsInv(c, s);
    case WorkerMove(i) => WorkerKeepsInv(c, s, i);
    case SpuriousCoordinator => SpuriousCoordinatorKeepsInv(c, s);
    case SpuriousWorker(i) => SpuriousWorkerKeepsInv(c, s, i);
  }

  /** Every state of every schedule satisfies the invariant. */
  lemma {:induction false} RunKeepsInv<G>(c: Config<G>, s: State<G>, schedule: seq<Move<G>>)
    requires c.Valid() && Inv(c, s) && Runs(c, s, schedule)
    ensures Inv(c, Run(c, s, schedule))
    decreases |schedule|
  {
    if schedule != [] {
      MoveKeepsInv(c, s, schedule[0]);
      RunKeepsInv(c, Next(c, s, schedule[0]), schedule[1..]);
    }
  }
}
