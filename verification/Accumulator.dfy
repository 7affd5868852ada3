/** The ordered batch accumulator. Gradient arithmetic stays abstract: only the
    order in which it is applied matters here. */
module Accumulator {
  import opened Options

  /** The operations of the compensated sum; None is a non-finite result. */
  datatype Arithmetic<!G> = Arithmetic(
    zero: G,
    add: (G, G, G) -> Option<(G, G)>,
    finish: (G, G, nat) -> Option<G>)

  datatype Acc<G> = Acc(
    sum: G, compensation: G, next: nat, end: nat, count: nat, active: bool, finalized: bool)

  ghost function Reset<G>(ar: Arithmetic<G>, acc: Acc<G>, begin: nat, end: nat): Option<Acc<G>> {
    if begin >= end then None else Some(Acc(ar.zero, ar.zero, begin, end, 0, true, false))
  }

  ghost function Add<G>(ar: Arithmetic<G>, acc: Acc<G>, index: nat, gradient: G): Option<Acc<G>> {
    if !acc.active || acc.finalized || acc.next >= acc.end || index != acc.next then
      None
    else
      match ar.add(acc.sum, acc.compensation, gradient)
      case None => None
      case Some((s, c)) => Some(acc.(sum := s, compensation := c, next := acc.next + 1, count := acc.count + 1))
  }

  ghost function Finalize<G>(ar: Arithmetic<G>, acc: Acc<G>): Option<Acc<G>> {
    if !acc.active || acc.finalized || acc.count == 0 || acc.next != acc.end then
      None
    else
      match ar.finish(acc.sum, acc.compensation, acc.count)
      case None => None
      case Some(mean) => Some(acc.(sum := mean, finalized := true))
  }

  // ---------- the sequential meaning ----------

  /** The left fold of the compensated addition. */
  ghost function Fold<G>(ar: Arithmetic<G>, gradients: seq<G>): Option<(G, G)> {
    if gradients == [] then
      Some((ar.zero, ar.zero))
    else
      match Fold(ar, gradients[..|gradients| - 1])
      case None => None
      case Some((s, c)) => ar.add(s, c, gradients[|gradients| - 1])
  }

  ghost function Mean<G>(ar: Arithmetic<G>, gradients: seq<G>): Option<G> {
    match Fold(ar, gradients)
    case None => None
    case Some((s, c)) => ar.finish(s, c, |gradients|)
  }

  /** What an accumulator holds after the first gradients of a range. */
  ghost predicate Holds<G>(ar: Arithmetic<G>, acc: Acc<G>, begin: nat, end: nat, gradients: seq<G>) {
    && acc.active && !acc.finalized
    && acc.next == begin + |gradients| && acc.end == end && acc.count == |gradients|
    && Fold(ar, gradients) == Some((acc.sum, acc.compensation))
  }

  lemma ResetHolds<G>(ar: Arithmetic<G>, acc: Acc<G>, begin: nat, end: nat)
    requires begin < end
    ensures Reset(ar, acc, begin, end).Some?
    ensures Holds(ar, Reset(ar, acc, begin, end).value, begin, end, [])
  {
  }

  /** Adding the next position extends the fold; it fails only when the
      arithmetic does, never because of the order. */
  lemma AddExtends<G>(ar: Arithmetic<G>, acc: Acc<G>, begin: nat, end: nat, gradients: seq<G>, g: G)
    requires Holds(ar, acc, begin, end, gradients) && begin + |gradients| < end
    ensures match Add(ar, acc, begin + |gradients|, g)
            case Some(next) => Holds(ar, next, begin, end, gradients + [g])
            case None => Fold(ar, gradients + [g]) == None
  {
    assert (gradients + [g])[..|gradients|] == gradients;
  }

  /** Any other position is refused. */
  lemma OutOfOrderIsRefused<G>(ar: Arithmetic<G>, acc: Acc<G>, begin: nat, end: nat, gradients: seq<G>,
                               index: nat, g: G)
    requires Holds(ar, acc, begin, end, gradients)
    requires index != begin + |gradients| || begin + |gradients| >= end
    ensures Add(ar, acc, index, g) == None
  {
  }

  /** A complete batch is the mean of the fold; an incomplete one is refused. */
  lemma FinalizeIsMean<G>(ar: Arithmetic<G>, acc: Acc<G>, begin: nat, end: nat, gradients: seq<G>)
    requires begin < end && Holds(ar, acc, begin, end, gradients)
    ensures begin + |gradients| != end ==> Finalize(ar, acc) == None
    ensures begin + |gradients| == end ==>
              match Finalize(ar, acc)
              case Some(done) => Mean(ar, gradients) == Some(done.sum)
              case None => Mean(ar, gradients) == None
  {
  }

  lemma {:induction false} FoldFailurePersists<G>(ar: Arithmetic<G>, gradients: seq<G>, n: nat)
    requires n <= |gradients| && Fold(ar, gradients[..n]) == None
    ensures Fold(ar, gradients) == None
    decreases |gradients| - n
  {
    if n < |gradients| {
      assert gradients[..n + 1][..n] == gradients[..n];
      FoldFailurePersists(ar, gradients, n + 1);
    } else {
      assert gradients[..n] == gradients;
    }
  }

  /** The accumulator object. Its methods compute the functions above, and a
      refused call leaves every field as it was. */
  class BatchAccumulator<G> {
    const ar: Arithmetic<G>
    var sum: G
    var compensation: G
    var next: nat
    var end: nat
    var count: nat
    var active: bool
    var finalized: bool

    ghost function Value(): Acc<G>
      reads this
    {
      Acc(sum, compensation, next, end, count, active, finalized)
    }

    constructor (ar: Arithmetic<G>)
      ensures this.ar == ar && Value() == Acc(ar.zero, ar.zero, 0, 0, 0, false, false)
    {
      this.ar := ar;
      sum, compensation := ar.zero, ar.zero;
      next, end, count := 0, 0, 0;
      active, finalized := false, false;
    }

    method ResetRange(begin: nat, rangeEnd: nat) returns (ok: bool)
      modifies this
      ensures match Reset(ar, old(Value()), begin, rangeEnd)
              case Some(acc) => ok && Value() == acc
              case None => !ok && Value() == old(Value())
    {
      if begin >= rangeEnd {
        return false;
      }
      sum, compensation := ar.zero, ar.zero;
      next, end, count := begin, rangeEnd, 0;
      active, finalized := true, false;
      return true;
    }

    method AddSample(index: nat, gradient: G) returns (ok: bool)
      modifies this
      ensures match Add(ar, old(Value()), index, gradient)
              case Some(acc) => ok && Value() == acc
              case None => !ok && Value() == old(Value())
    {
      if !active || finalized || next >= end || index != next {
        return false;
      }
      match ar.add(sum, compensation, gradient)
      case None =>
        return false;
      case Some((s, c)) =>
        sum, compensation := s, c;
        next, count := next + 1, count + 1;
        return true;
    }

    method FinalizeBatch() returns (ok: bool)
      modifies this
      ensures match Finalize(ar, old(Value()))
              case Some(acc) => ok && Value() == acc
              case None => !ok && Value() == old(Value())
    {
      if !active || finalized || count == 0 || next != end {
        return false;
      }
      match ar.finish(sum, compensation, count)
      case None =>
        return false;
      case Some(mean) =>
        sum, finalized := mean, true;
        return true;
    }
  }
}
