/** The arithmetic that cuts a dataset into batches and a batch into waves. */
module Plans {
  import opened Options

  function CeilDiv(count: nat, size: nat): nat
    requires size > 0
  {
    count / size + (if count % size != 0 then 1 else 0)
  }

  function Min(a: nat, b: nat): nat {
    if a < b then a else b
  }

  /** CeilDiv is the least number of pieces that covers count. */
  lemma CeilDivCovers(count: nat, size: nat)
    requires size > 0
    ensures count <= CeilDiv(count, size) * size
    ensures forall i: nat :: i < CeilDiv(count, size) <==> i * size < count
  {
    var q, r := count / size, count % size;
    assert count == q * size + r;
    assert (q + 1) * size == q * size + size;
    forall i: nat
      ensures i < CeilDiv(count, size) <==> i * size < count
    {
      if i <= q {
        Scale(i, q, size);
      } else {
        Scale(q + 1, i, size);
      }
    }
  }

  lemma Scale(i: nat, j: nat, size: nat)
    requires i <= j
    ensures i * size <= j * size
  {
  }

  // ---------- waves: half-open ranges of at most one sample per worker ----------

  datatype WavePlan = WavePlan(begin: nat, end: nat, workers: nat, waves: nat) {
    predicate Valid() {
      && begin < end
      && 0 < workers <= end - begin
      && waves == CeilDiv(end - begin, workers)
    }
  }

  function CreateWavePlan(begin: nat, end: nat, threads: nat): Option<WavePlan> {
    if begin >= end || threads == 0 then
      None
    else
      var workers := Min(threads, end - begin);
      Some(WavePlan(begin, end, workers, CeilDiv(end - begin, workers)))
  }

  function WaveRange(plan: WavePlan, wave: nat): Option<(nat, nat)> {
    if !plan.Valid() || wave >= plan.waves then
      None
    else
      CeilDivCovers(plan.end - plan.begin, plan.workers);
      var begin := plan.begin + wave * plan.workers;
      Some((begin, begin + Min(plan.end - begin, plan.workers)))
  }

  /** The waves of a plan follow one another without gap or overlap, cover the
      range, hold between one sample and one per worker, and never leave the
      machine word when the range fits it. */
  lemma WavesTileTheRange(begin: nat, end: nat, threads: nat, wave: nat)
    requires begin < end && threads > 0
    ensures var plan := CreateWavePlan(begin, end, threads).value;
            && CreateWavePlan(begin, end, threads).Some?
            && plan.Valid()
            && (WaveRange(plan, wave).Some? <==> wave < plan.waves)
            && (wave < plan.waves ==>
                  var (b, e) := WaveRange(plan, wave).value;
                  && begin <= b < e <= end
                  && e - b <= plan.workers
                  && (wave == 0 ==> b == begin)
                  && (wave + 1 < plan.waves ==> WaveRange(plan, wave + 1).value.0 == e)
                  && (wave + 1 == plan.waves ==> e == end))
  {
    var plan := CreateWavePlan(begin, end, threads).value;
    CeilDivCovers(end - begin, plan.workers);
    assert (wave + 1) * plan.workers == wave * plan.workers + plan.workers;
    if wave + 1 == plan.waves {
      assert end - begin <= (wave + 1) * plan.workers;
    }
  }

  // ---------- batches: the same cut, starting at zero ----------

  datatype BatchPlan = BatchPlan(samples: nat, size: nat, batches: nat) {
    predicate Valid() {
      0 < size <= samples && batches == CeilDiv(samples, size)
    }
  }

  function CreateBatchPlan(samples: nat, size: nat): Option<BatchPlan> {
    if samples == 0 || size == 0 || size > samples then
      None
    else
      Some(BatchPlan(samples, size, CeilDiv(samples, size)))
  }

  function BatchRange(plan: BatchPlan, batch: nat): Option<(nat, nat)> {
    if !plan.Valid() || batch >= plan.batches then
      None
    else
      CeilDivCovers(plan.samples, plan.size);
      var begin := batch * plan.size;
      Some((begin, begin + Min(plan.samples - begin, plan.size)))
  }

  /** The batch size the trainer asks for: zero and oversized mean everything. */
  function ResolvedBatchSize(samples: nat, configured: nat): nat {
    if configured == 0 || configured > samples then samples else configured
  }

  lemma BatchesTileTheDataset(samples: nat, configured: nat, batch: nat)
    requires samples > 0
    ensures var plan := CreateBatchPlan(samples, ResolvedBatchSize(samples, configured)).value;
            && CreateBatchPlan(samples, ResolvedBatchSize(samples, configured)).Some?
            && (BatchRange(plan, batch).Some? <==> batch < plan.batches)
            && (batch < plan.batches ==>
                  var (b, e) := BatchRange(plan, batch).value;
                  && b < e <= samples
                  && (batch == 0 ==> b == 0)
                  && (batch + 1 < plan.batches ==> BatchRange(plan, batch + 1).value.0 == e)
                  && (batch + 1 == plan.batches ==> e == samples))
  {
    var plan := CreateBatchPlan(samples, ResolvedBatchSize(samples, configured)).value;
    CeilDivCovers(samples, plan.size);
    assert (batch + 1) * plan.size == batch * plan.size + plan.size;
    if batch + 1 == plan.batches {
      assert samples <= (batch + 1) * plan.size;
    }
  }

  /** Every batch but the last has the configured size; zero and more than there is
      mean one batch of everything. */
  lemma BatchesAreFull(samples: nat, configured: nat, batch: nat)
    requires samples > 0
    ensures var plan := CreateBatchPlan(samples, ResolvedBatchSize(samples, configured)).value;
            && CreateBatchPlan(samples, ResolvedBatchSize(samples, configured)).Some?
            && (configured == 0 || configured >= samples ==> plan.batches == 1)
            && (0 < configured <= samples && batch < plan.batches ==>
                  var (b, e) := BatchRange(plan, batch).value;
                  BatchRange(plan, batch).Some?
                  && b == batch * configured
                  && if batch + 1 < plan.batches then e - b == configured else 1 <= e - b <= configured)
  {
    BatchesTileTheDataset(samples, configured, batch);
    var plan := CreateBatchPlan(samples, ResolvedBatchSize(samples, configured)).value;
    CeilDivCovers(samples, plan.size);
    assert (batch + 1) * plan.size == batch * plan.size + plan.size;
    if configured == 0 || configured >= samples {
      assert samples / samples == 1 && samples % samples == 0;
    }
  }

  /** Every wave but the last uses all threads, or all samples if these are fewer. */
  lemma WavesAreFull(begin: nat, end: nat, threads: nat, wave: nat)
    requires begin < end && threads > 0
    ensures var plan := CreateWavePlan(begin, end, threads).value;
            && CreateWavePlan(begin, end, threads).Some?
            && (threads >= end - begin ==> plan.waves == 1)
            && (threads <= end - begin && wave < plan.waves ==>
                  var (b, e) := WaveRange(plan, wave).value;
                  WaveRange(plan, wave).Some?
                  && b == begin + wave * threads
                  && if wave + 1 < plan.waves then e - b == threads else 1 <= e - b <= threads)
  {
    WavesTileTheRange(begin, end, threads, wave);
    var plan := CreateWavePlan(begin, end, threads).value;
    CeilDivCovers(end - begin, plan.workers);
    assert (wave + 1) * plan.workers == wave * plan.workers + plan.workers;
    if threads >= end - begin {
      assert (end - begin) / (end - begin) == 1 && (end - begin) % (end - begin) == 0;
    }
  }
}
