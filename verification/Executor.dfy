/** The worker pool as a transition system: one coordinator and any number of
    workers around one mutex and two condition variables. A schedule is any
    sequence of thread moves, spurious wake-ups included. */
module Executor {
  import opened Options
  import opened Plans
  import opened Accumulator

  // ---------- configuration and state ----------

  datatype Config<!G> = Config(threads: nat, sampleCount: nat, ar: Arithmetic<G>) {
    predicate Valid() {
      threads > 0 && sampleCount > 0
    }

    function WorkerCount(): nat {
      Min(threads, sampleCount)
    }
  }

  /** One batch call: a logical range, the order that maps positions to samples,
      and the gradient of each sample under the model of the moment. */
  datatype Call<!G> = Call(order: Option<seq<nat>>, begin: nat, end: nat, sample: nat -> Option<G>)

  datatype Owner = Free | ByCoordinator | ByWorker(worker: nat)

  datatype WorkerPc =
    | Locking            // before pthread_mutex_lock, or woken inside the wait
    | Checking           // owns the mutex, at the top of the loop
    | Waiting            // in the wait set of work_available
    | Computing(task: nat)
    | Finished           // gradient written, before pthread_mutex_lock
    | Reporting          // owns the mutex, about to decrement the counter
    | Exited

  datatype Worker<G> = Worker(
    pc: WorkerPc, hasTask: bool, logical: nat, sample: nat, success: bool, buffer: G)

  datatype Verdict<G> =
    | Success(gradient: G)
    | BadRange
    | LookupFailed(at: nat)
    | SampleFailed(at: nat)
    | AddFailed(at: nat)
    | FinishFailed

  datatype CoordinatorPc<G> =
    | Idle
    | WaveLock(wave: nat)
    | Assigning(wave: nat, k: nat)   // owns the mutex
    | Broadcast(wave: nat)           // owns the mutex
    | CheckPending(wave: nat)        // owns the mutex
    | WaitComplete(wave: nat)        // in the wait set of work_complete
    | WakeComplete(wave: nat)        // woken, before taking the mutex back
    | Collect(wave: nat)
    | Adding(wave: nat, k: nat)
    | Finalizing
    | Done(verdict: Verdict<G>)
    | StopLock
    | StopBroadcast                  // owns the mutex
    | Joining(k: nat)
    | Stopped

  datatype State<!G> = State(
    owner: Owner, pending: nat, stopping: bool, workers: seq<Worker<G>>,
    coordinator: CoordinatorPc<G>, call: Call<G>, acc: Acc<G>)

  datatype Move<!G> =
    | NewCall(call: Call<G>)
    | Stop
    | CoordinatorMove
    | WorkerMove(worker: nat)
    | SpuriousCoordinator
    | SpuriousWorker(worker: nat)

  ghost function Initial<G>(c: Config<G>): State<G> {
    State(Free, 0, false,
          seq(c.WorkerCount(), i => Worker(Locking, false, 0, 0, false, c.ar.zero)),
          Idle, Call(None, 0, 0, n => None),
          Acc(c.ar.zero, c.ar.zero, 0, 0, 0, false, false))
  }

  // ---------- the work of a call ----------

  ghost predicate Accepted<G>(c: Config<G>, call: Call<G>) {
    && call.begin < call.end <= c.sampleCount
    && (call.order.Some? ==> |call.order.value| == c.sampleCount)
  }

  ghost function PlanOf<G>(c: Config<G>, call: Call<G>): WavePlan
    requires c.Valid() && Accepted(c, call)
    ensures PlanOf(c, call).Valid()
  {
    WavesTileTheRange(call.begin, call.end, c.WorkerCount(), 0);
    CreateWavePlan(call.begin, call.end, c.WorkerCount()).value
  }

  ghost function WaveBegin<G>(c: Config<G>, call: Call<G>, wave: nat): nat
    requires c.Valid() && Accepted(c, call) && wave < PlanOf(c, call).waves
  {
    WavesTileTheRange(call.begin, call.end, c.WorkerCount(), wave);
    WaveRange(PlanOf(c, call), wave).value.0
  }

  ghost function WaveSize<G>(c: Config<G>, call: Call<G>, wave: nat): (n: nat)
    requires c.Valid() && Accepted(c, call) && wave < PlanOf(c, call).waves
    ensures 1 <= n <= c.WorkerCount()
    ensures call.begin <= WaveBegin(c, call, wave) && WaveBegin(c, call, wave) + n <= call.end
  {
    WavesTileTheRange(call.begin, call.end, c.WorkerCount(), wave);
    WaveRange(PlanOf(c, call), wave).value.1 - WaveBegin(c, call, wave)
  }

  lemma WavesChain<G>(c: Config<G>, call: Call<G>, wave: nat)
    requires c.Valid() && Accepted(c, call)
    ensures PlanOf(c, call).waves > 0 && WaveBegin(c, call, 0) == call.begin
    ensures wave + 1 < PlanOf(c, call).waves ==>
              WaveBegin(c, call, wave + 1) == WaveBegin(c, call, wave) + WaveSize(c, call, wave)
    ensures wave + 1 == PlanOf(c, call).waves ==>
              WaveBegin(c, call, wave) + WaveSize(c, call, wave) == call.end
  {
    CeilDivCovers(call.end - call.begin, PlanOf(c, call).workers);
    WavesTileTheRange(call.begin, call.end, c.WorkerCount(), 0);
    WavesTileTheRange(call.begin, call.end, c.WorkerCount(), wave);
  }

  ghost function Lookup<G>(call: Call<G>, position: nat): Option<nat> {
    match call.order
    case None => Some(position)
    case Some(indices) => if position < |indices| then Some(indices[position]) else None
  }

  ghost function PositionGradient<G>(call: Call<G>, position: nat): Option<G> {
    match Lookup(call, position)
    case None => None
    case Some(index) => call.sample(index)
  }

  ghost predicate AllSucceed<G>(call: Call<G>, upTo: nat) {
    forall p :: call.begin <= p < upTo ==> PositionGradient(call, p).Some?
  }

  ghost function Gradients<G>(call: Call<G>, upTo: nat): (g: seq<G>)
    requires AllSucceed(call, upTo)
    ensures |g| == if upTo <= call.begin then 0 else upTo - call.begin
  {
    if upTo <= call.begin then
      []
    else
      Gradients(call, upTo - 1) + [PositionGradient(call, upTo - 1).value]
  }

  /** The reference: one thread, one pass over the logical positions. */
  ghost function Sequential<G>(ar: Arithmetic<G>, call: Call<G>): Option<G> {
    if AllSucceed(call, call.end) then Mean(ar, Gradients(call, call.end)) else None
  }

  // ---------- moves ----------

  ghost predicate Enabled<G>(c: Config<G>, s: State<G>, m: Move<G>) {
    match m
    case NewCall(_) => s.coordinator.Idle? || s.coordinator.Done?
    case Stop => s.coordinator.Idle? || s.coordinator.Done?
    case CoordinatorMove => CoordinatorEnabled(s)
    case WorkerMove(i) => i < |s.workers| && WorkerEnabled(s, s.workers[i].pc)
    case SpuriousCoordinator => s.coordinator.WaitComplete?
    case SpuriousWorker(i) => i < |s.workers| && s.workers[i].pc.Waiting?
  }

  ghost predicate CoordinatorEnabled<G>(s: State<G>) {
    match s.coordinator
    case WaveLock(_) => s.owner.Free?
    case WakeComplete(_) => s.owner.Free?
    case StopLock => s.owner.Free?
    case Idle => false
    case Done(_) => false
    case WaitComplete(_) => false
    case Stopped => false
    case Joining(k) => k < |s.workers| ==> s.workers[k].pc.Exited?
    case _ => true
  }

  ghost predicate WorkerEnabled<G>(s: State<G>, pc: WorkerPc) {
    match pc
    case Locking => s.owner.Free?
    case Finished => s.owner.Free?
    case Waiting => false
    case Exited => false
    case _ => true
  }

  ghost function Next<G>(c: Config<G>, s: State<G>, m: Move<G>): State<G>
    requires c.Valid() && Enabled(c, s, m)
  {
    match m
    case NewCall(call) => BeginCall(c, s, call)
    case Stop => s.(coordinator := StopLock)
    case CoordinatorMove => CoordinatorNext(c, s)
    case WorkerMove(i) => WorkerNext(s, i)
    case SpuriousCoordinator => s.(coordinator := WakeComplete(s.coordinator.wave))
    case SpuriousWorker(i) => s.(workers := s.workers[i := s.workers[i].(pc := Locking)])
  }

  ghost function BeginCall<G>(c: Config<G>, s: State<G>, call: Call<G>): State<G> {
    if !Accepted(c, call) then
      s.(call := call, coordinator := Done(BadRange))
    else
      match Reset(c.ar, s.acc, call.begin, call.end)
      case None => s.(call := call, coordinator := Done(BadRange))
      case Some(acc) => s.(call := call, acc := acc, coordinator := WaveLock(0))
  }

  ghost function WorkerNext<G>(s: State<G>, i: nat): State<G>
    requires i < |s.workers| && WorkerEnabled(s, s.workers[i].pc)
  {
    var w := s.workers[i];
    match w.pc
    case Locking =>
      s.(owner := ByWorker(i), workers := s.workers[i := w.(pc := Checking)])
    case Checking =>
      if s.stopping then
        s.(owner := Free, workers := s.workers[i := w.(pc := Exited)])
      else if !w.hasTask then
        s.(owner := Free, workers := s.workers[i := w.(pc := Waiting)])
      else
        s.(owner := Free, workers := s.workers[i := w.(pc := Computing(w.sample), hasTask := false)])
    case Computing(task) =>
      var computed := match s.call.sample(task)
                      case None => w.(pc := Finished, success := false)
                      case Some(g) => w.(pc := Finished, success := true, buffer := g);
      s.(workers := s.workers[i := computed])
    case Finished =>
      s.(owner := ByWorker(i), workers := s.workers[i := w.(pc := Reporting)])
    case Reporting =>
      var left: nat := if s.pending == 0 then 0 else s.pending - 1;
      s.(pending := left,
         coordinator := if left == 0 then Signal(s.coordinator) else s.coordinator,
         workers := s.workers[i := w.(pc := Checking)])
    case _ => s
  }

  /** pthread_cond_signal(work_complete) */
  ghost function Signal<G>(pc: CoordinatorPc<G>): CoordinatorPc<G> {
    if pc.WaitComplete? then WakeComplete(pc.wave) else pc
  }

  /** pthread_cond_broadcast(work_available) */
  ghost function WakeAll<G>(workers: seq<Worker<G>>): (woken: seq<Worker<G>>)
    ensures |woken| == |workers|
    ensures forall i :: 0 <= i < |woken| ==>
              woken[i] == if workers[i].pc.Waiting? then workers[i].(pc := Locking) else workers[i]
  {
    seq(|workers|, i requires 0 <= i < |workers| =>
      if workers[i].pc.Waiting? then workers[i].(pc := Locking) else workers[i])
  }

  ghost function FirstFailure<G>(workers: seq<Worker<G>>, n: nat): (r: Option<nat>)
    requires n <= |workers|
    ensures r.None? ==> forall i :: 0 <= i < n ==> workers[i].success
    ensures r.Some? ==> r.value < n && !workers[r.value].success
                        && forall i :: 0 <= i < r.value ==> workers[i].success
  {
    if n == 0 then
      None
    else
      match FirstFailure(workers, n - 1)
      case Some(i) => Some(i)
      case None => if workers[n - 1].success then None else Some(n - 1)
  }

  /** In a call, the wave and the worker slots the program counter names exist. */
  ghost predicate InCall<G>(c: Config<G>, s: State<G>)
    requires c.Valid()
  {
    && Accepted(c, s.call)
    && (s.coordinator.Finalizing? ||
        (InWave(s.coordinator) && s.coordinator.wave < PlanOf(c, s.call).waves
         && WaveSize(c, s.call, s.coordinator.wave) <= |s.workers|
         && (s.coordinator.Assigning? || s.coordinator.Adding? ==>
               s.coordinator.k <= WaveSize(c, s.call, s.coordinator.wave))))
  }

  ghost predicate InWave<G>(pc: CoordinatorPc<G>) {
    pc.WaveLock? || pc.Assigning? || pc.Broadcast? || pc.CheckPending? || pc.WaitComplete?
    || pc.WakeComplete? || pc.Collect? || pc.Adding?
  }

  ghost function CoordinatorNext<G>(c: Config<G>, s: State<G>): State<G>
    requires c.Valid() && CoordinatorEnabled(s)
  {
    match s.coordinator
    case StopLock => s.(owner := ByCoordinator, stopping := true, coordinator := StopBroadcast)
    case StopBroadcast => s.(owner := Free, workers := WakeAll(s.workers), coordinator := Joining(0))
    case Joining(k) => s.(coordinator := if k < |s.workers| then Joining(k + 1) else Stopped)
    case _ => if c.Valid() && InCall(c, s) then CallNext(c, s) else s
  }

  ghost function CallNext<G>(c: Config<G>, s: State<G>): State<G>
    requires c.Valid() && InCall(c, s)
  {
    match s.coordinator
    case WaveLock(w) =>
      s.(owner := ByCoordinator, pending := WaveSize(c, s.call, w), coordinator := Assigning(w, 0))
    case Assigning(w, k) =>
      if k == WaveSize(c, s.call, w) then
        s.(coordinator := Broadcast(w))
      else
        var position := WaveBegin(c, s.call, w) + k;
        (match Lookup(s.call, position)
         case None => s.(owner := Free, coordinator := Done(LookupFailed(position)))
         case Some(index) =>
           s.(workers := s.workers[k := s.workers[k].(
                           logical := position, sample := index, hasTask := true, success := false)],
              coordinator := Assigning(w, k + 1)))
    case Broadcast(w) => s.(workers := WakeAll(s.workers), coordinator := CheckPending(w))
    case CheckPending(w) =>
      s.(owner := Free, coordinator := if s.pending != 0 then WaitComplete(w) else Collect(w))
    case WakeComplete(w) => s.(owner := ByCoordinator, coordinator := CheckPending(w))
    case Collect(w) =>
      (match FirstFailure(s.workers, WaveSize(c, s.call, w))
       case Some(i) => s.(coordinator := Done(SampleFailed(s.workers[i].logical)))
       case None => s.(coordinator := Adding(w, 0)))
    case Adding(w, k) =>
      if k < WaveSize(c, s.call, w) then
        (match Add(c.ar, s.acc, s.workers[k].logical, s.workers[k].buffer)
         case None => s.(coordinator := Done(AddFailed(s.workers[k].logical)))
         case Some(acc) => s.(acc := acc, coordinator := Adding(w, k + 1)))
      else if w + 1 < PlanOf(c, s.call).waves then
        s.(coordinator := WaveLock(w + 1))
      else
        s.(coordinator := Finalizing)
    case Finalizing =>
      (match Finalize(c.ar, s.acc)
       case None => s.(coordinator := Done(FinishFailed))
       case Some(acc) => s.(acc := acc, coordinator := Done(Success(acc.sum))))
    case _ => s
  }

  // ---------- runs ----------

  ghost predicate Runs<G>(c: Config<G>, s: State<G>, schedule: seq<Move<G>>)
    requires c.Valid()
    decreases |schedule|
  {
    schedule != [] ==> Enabled(c, s, schedule[0]) && Runs(c, Next(c, s, schedule[0]), schedule[1..])
  }

  ghost function Run<G>(c: Config<G>, s: State<G>, schedule: seq<Move<G>>): State<G>
    requires c.Valid() && Runs(c, s, schedule)
    decreases |schedule|
  {
    if schedule == [] then s else Run(c, Next(c, s, schedule[0]), schedule[1..])
  }

  // ---------- counting workers ----------

  ghost function SumBy<G>(workers: seq<Worker<G>>, f: Worker<G> -> nat): nat {
    if workers == [] then 0 else SumBy(workers[..|workers| - 1], f) + f(workers[|workers| - 1])
  }

  lemma {:induction false} SumByUpdate<G>(workers: seq<Worker<G>>, f: Worker<G> -> nat, i: nat, w: Worker<G>)
    requires i < |workers|
    ensures SumBy(workers[i := w], f) + f(workers[i]) == SumBy(workers, f) + f(w)
  {
    var n := |workers| - 1;
    if i == n {
      assert workers[i := w][..n] == workers[..n];
    } else {
      assert workers[i := w][..n] == workers[..n][i := w];
      SumByUpdate(workers[..n], f, i, w);
    }
  }

  lemma {:induction false} SumByGrows<G>(before: seq<Worker<G>>, after: seq<Worker<G>>, f: Worker<G> -> nat, d: nat)
    requires |before| == |after|
    requires forall i :: 0 <= i < |before| ==> f(before[i]) <= f(after[i]) <= f(before[i]) + d
    ensures SumBy(before, f) <= SumBy(after, f) <= SumBy(before, f) + d * |before|
  {
    if before != [] {
      var n := |before| - 1;
      SumByGrows(before[..n], after[..n], f, d);
      assert d * |before| == d * n + d;
    }
  }

  lemma {:induction false} SumByPositive<G>(workers: seq<Worker<G>>, f: Worker<G> -> nat) returns (i: nat)
    requires SumBy(workers, f) > 0
    ensures i < |workers| && f(workers[i]) > 0
  {
    var n := |workers| - 1;
    if f(workers[n]) > 0 {
      i := n;
    } else {
      i := SumByPositive(workers[..n], f);
    }
  }

  lemma {:induction false} SumByZero<G>(workers: seq<Worker<G>>, f: Worker<G> -> nat)
    ensures SumBy(workers, f) == 0 <==> forall i :: 0 <= i < |workers| ==> f(workers[i]) == 0
  {
    if workers != [] {
      var n := |workers| - 1;
      SumByZero(workers[..n], f);
      assert forall i :: 0 <= i < n ==> workers[..n][i] == workers[i];
    }
  }

  /** Assigned or computing: the workers the wave still waits for. */
  ghost predicate Busy<G>(w: Worker<G>) {
    w.hasTask || w.pc.Computing? || w.pc.Finished? || w.pc.Reporting?
  }

  ghost function BusyOne<G>(w: Worker<G>): nat {
    if Busy(w) then 1 else 0
  }

  ghost function BusyCount<G>(workers: seq<Worker<G>>): nat {
    SumBy(workers, BusyOne)
  }
}
