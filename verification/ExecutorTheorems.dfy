/** The promises of the worker pool, each stated over every schedule. */
module ExecutorTheorems {
  import opened Options
  import opened Plans
  import opened Accumulator
  import opened Executor
  import opened ExecutorSafety

  /** The state a schedule leads to from a freshly created pool. */
  ghost function After<G>(c: Config<G>, schedule: seq<Move<G>>): State<G>
    requires c.Valid() && Runs(c, Initial(c), schedule)
  {
    Run(c, Initial(c), schedule)
  }

  lemma AfterInv<G>(c: Config<G>, schedule: seq<Move<G>>)
    requires c.Valid() && Runs(c, Initial(c), schedule)
    ensures Inv(c, After(c, schedule))
  {
    InitialInv(c);
    RunKeepsInv(c, Initial(c), schedule);
  }

  // ---------- safety ----------

  /** The counter equals the number of workers that are assigned or computing
      whenever the coordinator is not in the middle of handing out a wave, and
      between batches it is zero with every worker idle. */
  lemma PendingCountsTheBusy<G>(c: Config<G>, schedule: seq<Move<G>>)
    requires c.Valid() && Runs(c, Initial(c), schedule)
    ensures var s := After(c, schedule);
            && (!s.coordinator.Assigning? ==> s.pending == |set i | 0 <= i < |s.workers| && Busy(s.workers[i])|)
            && (!Dispatching(s.coordinator) ==>
                  s.pending == 0 && forall i :: 0 <= i < |s.workers| ==> !Busy(s.workers[i]))
  {
    AfterInv(c, schedule);
    var s := After(c, schedule);
    BusyCountIsCardinality(s.workers);
    if !Dispatching(s.coordinator) {
      IdleMeansNoneBusy(c, s);
    }
  }

  lemma {:induction false} BusyCountIsCardinality<G>(workers: seq<Worker<G>>)
    ensures BusyCount(workers) == |set i | 0 <= i < |workers| && Busy(workers[i])|
  {
    var all := set i | 0 <= i < |workers| && Busy(workers[i]);
    if workers == [] {
      assert all == {};
    } else {
      var n := |workers| - 1;
      BusyCountIsCardinality(workers[..n]);
      var init := set i | 0 <= i < n && Busy(workers[..n][i]);
      assert all == init + (if Busy(workers[n]) then {n} else {});
      assert n !in init;
    }
  }

  /** No wake-up is lost. A coordinator asleep still has a worker to wait for; a
      worker asleep has nothing to do unless a broadcast is still on its way. */
  lemma NoWakeUpIsLost<G>(c: Config<G>, schedule: seq<Move<G>>)
    requires c.Valid() && Runs(c, Initial(c), schedule)
    ensures var s := After(c, schedule);
            && (s.coordinator.WaitComplete? ==>
                  exists i :: 0 <= i < |s.workers| && Busy(s.workers[i]) && !s.workers[i].pc.Waiting?)
            && forall i :: 0 <= i < |s.workers| && s.workers[i].pc.Waiting? ==>
                 (s.workers[i].hasTask ==> s.coordinator.Assigning? || s.coordinator.Broadcast?)
                 && (s.stopping ==> s.coordinator.StopBroadcast?)
  {
    AfterInv(c, schedule);
    var s := After(c, schedule);
    if s.coordinator.WaitComplete? {
      var i := SumByPositive(s.workers, BusyOne);
      assert WorkerOk(c, s.call, s.coordinator, s.stopping, i, s.workers[i]);
    }
    forall i | 0 <= i < |s.workers|
      ensures WorkerOk(c, s.call, s.coordinator, s.stopping, i, s.workers[i])
    {
    }
  }

  /** The coordinator touches the slots of a worker only while that worker does
      not compute, although neither side holds the mutex for it. */
  lemma SlotsAreNeverShared<G>(c: Config<G>, schedule: seq<Move<G>>)
    requires c.Valid() && Runs(c, Initial(c), schedule)
    ensures var s := After(c, schedule);
            && (s.coordinator.Assigning? ==>
                  forall i :: s.coordinator.k <= i < |s.workers| ==> !s.workers[i].pc.Computing?)
            && (s.coordinator.Collect? || s.coordinator.Adding? || s.coordinator.Done? ==>
                  forall i :: 0 <= i < |s.workers| ==> !s.workers[i].pc.Computing?)
  {
    AfterInv(c, schedule);
    var s := After(c, schedule);
    forall i | 0 <= i < |s.workers|
      ensures WorkerOk(c, s.call, s.coordinator, s.stopping, i, s.workers[i])
    {
    }
  }

  // ---------- the verdict ----------

  lemma {:induction false} GradientsPrefix<G>(call: Call<G>, p: nat, q: nat)
    requires call.begin <= p <= q && AllSucceed(call, q)
    ensures Gradients(call, q)[..p - call.begin] == Gradients(call, p)
    decreases q
  {
    if p < q {
      GradientsPrefix(call, p, q - 1);
    }
  }

  /** A failing verdict is a failing reference run, and a successful one returns
      the reference gradient: every interleaving refines the sequential fold. */
  lemma BatchRefinesSequentialFold<G>(c: Config<G>, schedule: seq<Move<G>>)
    requires c.Valid() && Runs(c, Initial(c), schedule) && After(c, schedule).coordinator.Done?
    ensures var s := After(c, schedule);
            var v := s.coordinator.verdict;
            && (v.BadRange? <==> !Accepted(c, s.call))
            && !v.LookupFailed?
            && (v.Success? ==> Sequential(c.ar, s.call) == Some(v.gradient))
            && (!v.Success? && !v.BadRange? ==> Sequential(c.ar, s.call) == None)
  {
    AfterInv(c, schedule);
    var s := After(c, schedule);
    assert AccOk(c, s);
    hide Inv, PlanOf, WaveBegin, WaveSize, Gradients, Fold;
    if s.coordinator.verdict.AddFailed? {
      SumFailureIsNoFold(c, s.call, s.coordinator.verdict.at);
    } else if s.coordinator.verdict.SampleFailed? {
      assert !AllSucceed(s.call, s.call.end);
    }
  }

  /** A sample failure names the earliest failing logical position. */
  lemma ReportedFailureIsTheEarliest<G>(c: Config<G>, schedule: seq<Move<G>>)
    requires c.Valid() && Runs(c, Initial(c), schedule)
    requires After(c, schedule).coordinator.Done? && After(c, schedule).coordinator.verdict.SampleFailed?
    ensures var s := After(c, schedule);
            var p := s.coordinator.verdict.at;
            && s.call.begin <= p < s.call.end
            && PositionGradient(s.call, p).None?
            && forall q :: s.call.begin <= q < p ==> PositionGradient(s.call, q).Some?
  {
    AfterInv(c, schedule);
    assert AccOk(c, After(c, schedule));
  }

  lemma WavesAscend<G>(c: Config<G>, call: Call<G>, w: nat, u: nat)
    requires c.Valid() && Accepted(c, call) && w < u < PlanOf(c, call).waves
    ensures WaveBegin(c, call, w) + WaveSize(c, call, w) <= WaveBegin(c, call, u)
    decreases u - w
  {
    WavesChain(c, call, w);
    if w + 1 < u {
      WavesAscend(c, call, w + 1, u);
    }
  }

  lemma PrefixFolds<G>(c: Config<G>, call: Call<G>, p: nat, q: nat)
    requires call.begin <= p <= q && Folds(c, call, q)
    ensures Folds(c, call, p)
  {
    GradientsPrefix(call, p, q);
    if Fold(c.ar, Gradients(call, p)).None? {
      FoldFailurePersists(c.ar, Gradients(call, q), p - call.begin);
    }
  }

  /** Two positions of the same wave. */
  ghost predicate Together<G>(c: Config<G>, call: Call<G>, q: nat, p: nat)
    requires c.Valid() && Accepted(c, call)
  {
    exists wave :: InWaveAt(c, call, wave, q) && InWaveAt(c, call, wave, p)
  }

  /** One pool reports a failing sample and the other an earlier sum, because only
      the first deals out both positions in one wave. */
  ghost predicate CutApart<G>(c1: Config<G>, c2: Config<G>, call: Call<G>, v1: Verdict<G>, v2: Verdict<G>)
    requires c1.Valid() && c2.Valid() && Accepted(c1, call) && Accepted(c2, call)
  {
    && v1.SampleFailed? && v2.AddFailed? && v2.at < v1.at
    && Together(c1, call, v2.at, v1.at) && !Together(c2, call, v2.at, v1.at)
  }

  /** A sum that fails before a failing sample shares the wave of the sample where
      the sample is reported, and not where the sum is. */
  lemma SampleAgainstSum<G>(c1: Config<G>, c2: Config<G>, call: Call<G>, p: nat, q: nat)
    requires c1.Valid() && c2.Valid() && Accepted(c1, call) && Accepted(c2, call) && c1.ar == c2.ar
    requires VerdictOk(c1, call, SampleFailed(p)) && VerdictOk(c2, call, AddFailed(q))
    ensures q < p && Together(c1, call, q, p) && !Together(c2, call, q, p)
  {
    hide PlanOf, WaveBegin, WaveSize, Gradients, Fold, Mean;
    var w: nat :| SampleFailsIn(c1, call, w, p);
    var u: nat :| AddFailsIn(c2, call, u, q);
    if WaveBegin(c1, call, w) > q {
      PrefixFolds(c1, call, q + 1, WaveBegin(c1, call, w));
    }
    assert InWaveAt(c1, call, w, q);
    if Together(c2, call, q, p) {
      var x: nat :| InWaveAt(c2, call, x, q) && InWaveAt(c2, call, x, p);
      if x < u {
        WavesAscend(c2, call, x, u);
      } else if u < x {
        WavesAscend(c2, call, u, x);
      }
    }
  }

  lemma SumsAgree<G>(c1: Config<G>, c2: Config<G>, call: Call<G>, p: nat, q: nat)
    requires c1.Valid() && c2.Valid() && Accepted(c1, call) && Accepted(c2, call) && c1.ar == c2.ar
    requires VerdictOk(c1, call, AddFailed(p)) && VerdictOk(c2, call, AddFailed(q))
    ensures p >= q
  {
    hide PlanOf, WaveBegin, WaveSize, Gradients, Fold, Mean;
    var w: nat :| AddFailsIn(c1, call, w, p);
    var u: nat :| AddFailsIn(c2, call, u, q);
    if p < q {
      PrefixFolds(c2, call, p + 1, q);
    }
  }

  /** A sum that fails rules out every verdict that folds the whole range. */
  lemma SumFailureIsNoFold<G>(c: Config<G>, call: Call<G>, p: nat)
    requires c.Valid() && Accepted(c, call) && VerdictOk(c, call, AddFailed(p))
    ensures !Folds(c, call, call.end)
  {
    hide PlanOf, WaveBegin, WaveSize, Gradients, Fold, Mean;
    var w: nat :| AddFailsIn(c, call, w, p);
    if Folds(c, call, call.end) {
      assert p + 1 <= call.end;
      PrefixFolds(c, call, p + 1, call.end);
    }
  }

  lemma VerdictsAgree<G>(c1: Config<G>, c2: Config<G>, call: Call<G>, v1: Verdict<G>, v2: Verdict<G>)
    requires c1.Valid() && c2.Valid() && c1.ar == c2.ar && c1.sampleCount == c2.sampleCount
    requires VerdictOk(c1, call, v1) && VerdictOk(c2, call, v2)
    ensures v1.BadRange? <==> v2.BadRange?
    ensures v1 == v2
            || (Accepted(c1, call) && (CutApart(c1, c2, call, v1, v2) || CutApart(c2, c1, call, v2, v1)))
  {
    assert Accepted(c1, call) <==> Accepted(c2, call);
    hide PlanOf, WaveBegin, WaveSize, Gradients, Fold, Together;
    match (v1, v2) {
      case (SampleFailed(p), AddFailed(q)) => SampleAgainstSum(c1, c2, call, p, q);
      case (AddFailed(p), SampleFailed(q)) => SampleAgainstSum(c2, c1, call, q, p);
      case (AddFailed(p), AddFailed(q)) => SumsAgree(c1, c2, call, p, q); SumsAgree(c2, c1, call, q, p);
      case (AddFailed(p), _) => if Accepted(c1, call) { SumFailureIsNoFold(c1, call, p); }
      case (_, AddFailed(q)) => if Accepted(c2, call) { SumFailureIsNoFold(c2, call, q); }
      case _ =>
    }
  }

  /** The verdict, gradient or error, is a function of the call and the size of the
      pool: no interleaving can change it. */
  lemma ScheduleIsIrrelevant<G>(c: Config<G>, sched1: seq<Move<G>>, sched2: seq<Move<G>>)
    requires c.Valid()
    requires Runs(c, Initial(c), sched1) && After(c, sched1).coordinator.Done?
    requires Runs(c, Initial(c), sched2) && After(c, sched2).coordinator.Done?
    requires After(c, sched1).call == After(c, sched2).call
    ensures After(c, sched1).coordinator.verdict == After(c, sched2).coordinator.verdict
  {
    AfterInv(c, sched1);
    AfterInv(c, sched2);
    assert AccOk(c, After(c, sched1)) && AccOk(c, After(c, sched2));
    VerdictsAgree(c, c, After(c, sched1).call, After(c, sched1).coordinator.verdict,
                  After(c, sched2).coordinator.verdict);
    hide Inv, VerdictOk, Together;
  }

  /** Two pools of any sizes, driven by any two schedules, answer the same call with
      the same verdict, but for one case in which both fail: a sum that is not
      finite before a failing sample is reported by the pool that deals them out in
      different waves, and the sample by the other. */
  lemma ThreadCountIsIrrelevant<G>(c1: Config<G>, c2: Config<G>, sched1: seq<Move<G>>, sched2: seq<Move<G>>)
    requires c1.Valid() && Runs(c1, Initial(c1), sched1) && After(c1, sched1).coordinator.Done?
    requires c2.Valid() && Runs(c2, Initial(c2), sched2) && After(c2, sched2).coordinator.Done?
    requires c1.ar == c2.ar && c1.sampleCount == c2.sampleCount
    requires After(c1, sched1).call == After(c2, sched2).call
    ensures var v1, v2, call := After(c1, sched1).coordinator.verdict, After(c2, sched2).coordinator.verdict,
                                After(c1, sched1).call;
            && (v1.Success? <==> v2.Success?)
            && (v1.Success? ==> v1.gradient == v2.gradient)
            && (v1 == v2
                || (Accepted(c1, call) && (CutApart(c1, c2, call, v1, v2) || CutApart(c2, c1, call, v2, v1))))
  {
    AfterInv(c1, sched1);
    AfterInv(c2, sched2);
    assert AccOk(c1, After(c1, sched1)) && AccOk(c2, After(c2, sched2));
    VerdictsAgree(c1, c2, After(c1, sched1).call, After(c1, sched1).coordinator.verdict,
                  After(c2, sched2).coordinator.verdict);
    hide Inv, VerdictOk, Together;
  }

  // ---------- progress ----------

  ghost predicate Regular<G>(m: Move<G>) {
    m.CoordinatorMove? || m.WorkerMove?
  }

  /** Whatever happened so far, spurious wake-ups or not, a batch or a shutdown
      that has not finished has a thread that can move. */
  lemma NeverStuck<G>(c: Config<G>, schedule: seq<Move<G>>)
    requires c.Valid() && Runs(c, Initial(c), schedule)
    ensures var s := After(c, schedule);
            s.coordinator.Idle? || s.coordinator.Done? || s.coordinator.Stopped?
            || exists m: Move<G> :: Regular(m) && Enabled(c, s, m)
  {
    AfterInv(c, schedule);
    var s := After(c, schedule);
    match s.owner
    case ByWorker(i) =>
      assert s.workers[i].pc.Checking? || s.workers[i].pc.Reporting?;
      assert Enabled(c, s, WorkerMove(i));
    case ByCoordinator =>
      assert Enabled(c, s, CoordinatorMove);
    case Free =>
      if s.coordinator.WaitComplete? {
        NoWakeUpIsLost(c, schedule);
        var i :| 0 <= i < |s.workers| && Busy(s.workers[i]) && !s.workers[i].pc.Waiting?;
        assert WorkerOk(c, s.call, s.coordinator, s.stopping, i, s.workers[i]);
        assert Enabled(c, s, WorkerMove(i));
      } else if s.coordinator.Joining? && !CoordinatorEnabled(s) {
        var k := s.coordinator.k;
        assert WorkerOk(c, s.call, s.coordinator, s.stopping, k, s.workers[k]);
        assert Enabled(c, s, WorkerMove(k));
      } else if CoordinatorEnabled(s) {
        assert Enabled(c, s, CoordinatorMove);
      }
  }

  /** A bound on the work a worker can still do. */
  ghost function WorkerRank<G>(w: Worker<G>): nat {
    (match w.pc
     case Computing(_) => 8
     case Finished => 7
     case Reporting => 6
     case Locking => 2
     case Checking => 1
     case _ => 0)
    + if w.hasTask then 9 else 0
  }

  ghost function WaveCost(n: nat): nat {
    13 * n + 30
  }

  ghost function RemainingWaves<G>(c: Config<G>, call: Call<G>, pc: CoordinatorPc<G>): nat
    requires c.Valid() && PlaceOk(c, call, pc)
  {
    if InWave(pc) then PlanOf(c, call).waves - 1 - pc.wave else 0
  }

  /** What the coordinator can still cause within its wave. */
  ghost function PlaceRank<G>(c: Config<G>, call: Call<G>, pc: CoordinatorPc<G>): nat
    requires c.Valid() && PlaceOk(c, call, pc)
  {
    var n := c.WorkerCount();
    match pc
    case WaveLock(_) => 13 * n + 20
    case Assigning(w, k) => 3 * n + 10 + 10 * (WaveSize(c, call, w) - k)
    case Broadcast(_) => 3 * n + 9
    case WakeComplete(_) => n + 8
    case CheckPending(_) => n + 7
    case WaitComplete(_) => n + 6
    case Collect(_) => n + 5
    case Adding(w, k) => 3 + (WaveSize(c, call, w) - k)
    case Finalizing => 2
    case StopLock => 3 * n + 4
    case StopBroadcast => 3 * n + 3
    case Joining(k) => if k <= n then n + 1 - k else 1
    case _ => 0
  }

  ghost function Rank<G>(c: Config<G>, s: State<G>): nat
    requires c.Valid() && PlaceOk(c, s.call, s.coordinator)
  {
    SumBy(s.workers, WorkerRank) + PlaceRank(c, s.call, s.coordinator)
    + RemainingWaves(c, s.call, s.coordinator) * WaveCost(c.WorkerCount())
  }

  lemma WorkerMoveRanks<G>(c: Config<G>, s: State<G>, i: nat)
    requires c.Valid() && PlaceOk(c, s.call, s.coordinator)
    requires i < |s.workers| && WorkerEnabled(s, s.workers[i].pc)
    ensures PlaceOk(c, s.call, WorkerNext(s, i).coordinator)
    ensures Rank(c, WorkerNext(s, i)) < Rank(c, s)
  {
    hide PlanOf, WaveBegin, WaveSize;
    var t := WorkerNext(s, i);
    var w := t.workers[i];
    assert t.workers == s.workers[i := w];
    SumByUpdate(s.workers, WorkerRank, i, w);
    SignalRanks(c, s.call, s.coordinator);
    if s.workers[i].pc.Reporting? {
      assert WorkerRank(w) + 5 == WorkerRank(s.workers[i]);
    } else {
      assert t.coordinator == s.coordinator;
      assert WorkerRank(w) < WorkerRank(s.workers[i]);
    }
  }

  lemma SignalRanks<G>(c: Config<G>, call: Call<G>, pc: CoordinatorPc<G>)
    requires c.Valid() && PlaceOk(c, call, pc)
    ensures PlaceOk(c, call, Signal(pc))
    ensures PlaceRank(c, call, Signal(pc)) <= PlaceRank(c, call, pc) + 2
    ensures RemainingWaves(c, call, Signal(pc)) == RemainingWaves(c, call, pc)
  {
  }

  lemma BroadcastRanks<G>(workers: seq<Worker<G>>)
    ensures SumBy(WakeAll(workers), WorkerRank) <= SumBy(workers, WorkerRank) + 2 * |workers|
  {
    SumByGrows(workers, WakeAll(workers), WorkerRank, 2);
  }

  lemma CallMoveRanks<G>(c: Config<G>, s: State<G>)
    requires c.Valid() && CoordinatorEnabled(s) && InCall(c, s) && |s.workers| == c.WorkerCount()
    requires PlaceOk(c, s.call, s.coordinator) && PlaceOk(c, s.call, CallNext(c, s).coordinator)
    ensures Rank(c, CallNext(c, s)) < Rank(c, s)
  {
    match s.coordinator
    case Assigning(_, _) => AssigningRanks(c, s);
    case Broadcast(_) => BroadcastRanks(s.workers);
    case Adding(_, _) => AddingRanks(c, s);
    case _ => QuietMoveRanks(c, s);
  }

  /** Same workers, no more waves to come, and a smaller place: a smaller rank. */
  lemma RankFalls<G>(c: Config<G>, s: State<G>, t: State<G>)
    requires c.Valid() && PlaceOk(c, s.call, s.coordinator) && PlaceOk(c, t.call, t.coordinator)
    requires t.workers == s.workers
    requires PlaceRank(c, t.call, t.coordinator) < PlaceRank(c, s.call, s.coordinator)
    requires RemainingWaves(c, t.call, t.coordinator) <= RemainingWaves(c, s.call, s.coordinator)
    ensures Rank(c, t) < Rank(c, s)
  {
    hide PlaceRank, RemainingWaves;
    Scale(RemainingWaves(c, t.call, t.coordinator), RemainingWaves(c, s.call, s.coordinator),
          WaveCost(c.WorkerCount()));
  }

  lemma QuietMoveRanks<G>(c: Config<G>, s: State<G>)
    requires c.Valid() && CoordinatorEnabled(s) && InCall(c, s) && |s.workers| == c.WorkerCount()
    requires PlaceOk(c, s.call, s.coordinator) && PlaceOk(c, s.call, CallNext(c, s).coordinator)
    requires !s.coordinator.Assigning? && !s.coordinator.Broadcast? && !s.coordinator.Adding?
    ensures Rank(c, CallNext(c, s)) < Rank(c, s)
  {
    hide PlanOf, WaveBegin, WaveSize, Rank;
    RankFalls(c, s, CallNext(c, s));
  }

  lemma AssigningRanks<G>(c: Config<G>, s: State<G>)
    requires c.Valid() && InCall(c, s) && s.coordinator.Assigning? && |s.workers| == c.WorkerCount()
    requires PlaceOk(c, s.call, s.coordinator) && PlaceOk(c, s.call, CallNext(c, s).coordinator)
    ensures Rank(c, CallNext(c, s)) < Rank(c, s)
  {
    hide PlanOf, WaveBegin, WaveSize;
    var t, k := CallNext(c, s), s.coordinator.k;
    if t.coordinator.Assigning? {
      var w := t.workers[k];
      assert t.workers == s.workers[k := w];
      assert WorkerRank(w) <= WorkerRank(s.workers[k]) + 9;
      SumByUpdate(s.workers, WorkerRank, k, w);
    }
  }

  lemma AddingRanks<G>(c: Config<G>, s: State<G>)
    requires c.Valid() && InCall(c, s) && s.coordinator.Adding?
    requires PlaceOk(c, s.call, s.coordinator) && PlaceOk(c, s.call, CallNext(c, s).coordinator)
    ensures Rank(c, CallNext(c, s)) < Rank(c, s)
  {
    hide PlanOf, WaveBegin, WaveSize;
    var t := CallNext(c, s);
    if t.coordinator.WaveLock? {
      OneWaveLess(RemainingWaves(c, s.call, s.coordinator), WaveCost(c.WorkerCount()));
    } else {
      hide Rank;
      RankFalls(c, s, t);
    }
  }

  lemma OneWaveLess(remaining: nat, cost: nat)
    requires remaining > 0
    ensures remaining * cost == (remaining - 1) * cost + cost
  {
  }

  lemma RegularMoveRanks<G>(c: Config<G>, s: State<G>, m: Move<G>)
    requires c.Valid() && Inv(c, s) && Enabled(c, s, m) && Regular(m)
    requires PlaceOk(c, Next(c, s, m).call, Next(c, s, m).coordinator)
    ensures Rank(c, Next(c, s, m)) < Rank(c, s)
  {
    hide PlanOf, WaveBegin, WaveSize;
    if m.WorkerMove? {
      WorkerMoveRanks(c, s, m.worker);
    } else if InWave(s.coordinator) || s.coordinator.Finalizing? {
      assert InCall(c, s) by {
        CallMoveKeepsInv(c, s);
      }
      CallMoveRanks(c, s);
    } else {
      StopMoveRanks(c, s);
    }
  }

  lemma StopMoveRanks<G>(c: Config<G>, s: State<G>)
    requires c.Valid() && CoordinatorEnabled(s) && |s.workers| == c.WorkerCount()
    requires s.coordinator.StopLock? || s.coordinator.StopBroadcast? || s.coordinator.Joining?
    requires s.coordinator.Joining? ==> s.coordinator.k <= |s.workers|
    ensures Rank(c, CoordinatorNext(c, s)) < Rank(c, s)
  {
    BroadcastRanks(s.workers);
  }

  lemma SpuriousMoveRanks<G>(c: Config<G>, s: State<G>, m: Move<G>)
    requires c.Valid() && Enabled(c, s, m) && (m.SpuriousCoordinator? || m.SpuriousWorker?)
    requires PlaceOk(c, s.call, s.coordinator)
    requires PlaceOk(c, Next(c, s, m).call, Next(c, s, m).coordinator)
    ensures Rank(c, Next(c, s, m)) <= Rank(c, s) + 2
  {
    if m.SpuriousWorker? {
      SumByUpdate(s.workers, WorkerRank, m.worker, s.workers[m.worker].(pc := Locking));
    }
  }

  ghost function CountRegular<G>(schedule: seq<Move<G>>): nat {
    if schedule == [] then 0 else (if Regular(schedule[0]) then 1 else 0) + CountRegular(schedule[1..])
  }

  ghost predicate NoRequests<G>(schedule: seq<Move<G>>) {
    forall i :: 0 <= i < |schedule| ==> !schedule[i].NewCall? && !schedule[i].Stop?
  }

  /** Between two requests the threads can make only boundedly many moves: the
      rank at the start, plus two for every spurious wake-up. With NeverStuck,
      every batch and every shutdown with finitely many spurious wake-ups ends. */
  lemma {:induction false} EveryRunIsBounded<G>(c: Config<G>, s: State<G>, schedule: seq<Move<G>>)
    requires c.Valid() && Inv(c, s) && Runs(c, s, schedule) && NoRequests(schedule)
    ensures CountRegular(schedule) <= Rank(c, s) + 2 * (|schedule| - CountRegular(schedule))
    decreases |schedule|
  {
    if schedule != [] {
      var m := schedule[0];
      var t := Next(c, s, m);
      MoveKeepsInv(c, s, m);
      EveryRunIsBounded(c, t, schedule[1..]);
      if Regular(m) {
        RegularMoveRanks(c, s, m);
      } else {
        SpuriousMoveRanks(c, s, m);
      }
    }
  }
}
