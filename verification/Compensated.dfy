/** The compensated gradient sum: validated entry by entry first and written only
    then, over abstract floating-point operations. */
module Compensated {
  import opened Options
  import opened Accumulator

  datatype Rounding<!F> = Rounding(
    zero: F, add: (F, F) -> F, sub: (F, F) -> F, mul: (F, F) -> F, finite: F -> bool,
    dominates: (F, F) -> bool)   // the first magnitude is at least the second

  /** One compensated addition; None where something is not finite. */
  function CompensatedAdd<F>(fl: Rounding<F>, sum: F, compensation: F, addend: F): Option<(F, F)> {
    if !fl.finite(sum) || !fl.finite(compensation) || !fl.finite(addend) then
      None
    else
      var total := fl.add(sum, addend);
      var correction := if fl.dominates(sum, addend) then fl.add(fl.sub(sum, total), addend)
                        else fl.add(fl.sub(addend, total), sum);
      var corrected := fl.add(compensation, correction);
      if !fl.finite(total) || !fl.finite(correction) || !fl.finite(corrected) || !fl.finite(fl.add(total, corrected))
      then None
      else Some((total, corrected))
  }

  /** One entry of the final mean. */
  function FinishEntry<F>(fl: Rounding<F>, sum: F, compensation: F, factor: F): Option<F> {
    var combined := fl.add(sum, compensation);
    if !fl.finite(sum) || !fl.finite(compensation) || !fl.finite(combined) || !fl.finite(fl.mul(combined, factor))
    then None
    else Some(fl.mul(combined, factor))
  }

  // ---------- whole gradients ----------

  predicate Addable<F>(fl: Rounding<F>, sum: seq<F>, compensation: seq<F>, addend: seq<F>) {
    && |sum| == |compensation| == |addend|
    && forall i :: 0 <= i < |sum| ==> CompensatedAdd(fl, sum[i], compensation[i], addend[i]).Some?
  }

  function Added<F>(fl: Rounding<F>, sum: seq<F>, compensation: seq<F>, addend: seq<F>): (r: (seq<F>, seq<F>))
    requires Addable(fl, sum, compensation, addend)
    ensures |r.0| == |r.1| == |sum|
  {
    (seq(|sum|, i requires 0 <= i < |sum| => CompensatedAdd(fl, sum[i], compensation[i], addend[i]).value.0),
     seq(|sum|, i requires 0 <= i < |sum| => CompensatedAdd(fl, sum[i], compensation[i], addend[i]).value.1))
  }

  /** Either every entry is finite and both buffers are replaced, or the first bad
      entry is found before anything is written. */
  method Accumulate<F>(fl: Rounding<F>, sum: array<F>, compensation: array<F>, addend: seq<F>) returns (ok: bool)
    requires sum != compensation
    modifies sum, compensation
    ensures ok <==> Addable(fl, old(sum[..]), old(compensation[..]), addend)
    ensures ok ==> (sum[..], compensation[..]) == Added(fl, old(sum[..]), old(compensation[..]), addend)
    ensures !ok ==> sum[..] == old(sum[..]) && compensation[..] == old(compensation[..])
  {
    if sum.Length != compensation.Length || sum.Length != |addend| {
      return false;
    }
    hide CompensatedAdd;
    for i := 0 to sum.Length
      invariant forall j :: 0 <= j < i ==> CompensatedAdd(fl, sum[j], compensation[j], addend[j]).Some?
    {
      if CompensatedAdd(fl, sum[i], compensation[i], addend[i]).None? {
        assert CompensatedAdd(fl, old(sum[..])[i], old(compensation[..])[i], addend[i]).None?;
        return false;
      }
    }
    ghost var before, owed := sum[..], compensation[..];
    assert Addable(fl, before, owed, addend);
    for i := 0 to sum.Length
      invariant forall j :: 0 <= j < i ==> CompensatedAdd(fl, before[j], owed[j],
                                                          addend[j]) == Some((sum[j], compensation[j]))
      invariant forall j :: i <= j < sum.Length ==> sum[j] == before[j] && compensation[j] == owed[j]
    {
      var next := CompensatedAdd(fl, sum[i], compensation[i], addend[i]).value;
      sum[i], compensation[i] := next.0, next.1;
    }
    assert sum[..] == Added(fl, before, owed, addend).0 && compensation[..] == Added(fl, before, owed, addend).1;
    return true;
  }

  predicate Finishable<F>(fl: Rounding<F>, sum: seq<F>, compensation: seq<F>, factor: F) {
    && |sum| == |compensation| && fl.finite(factor)
    && forall i :: 0 <= i < |sum| ==> FinishEntry(fl, sum[i], compensation[i], factor).Some?
  }

  method Finish<F>(fl: Rounding<F>, sum: array<F>, compensation: seq<F>, factor: F) returns (ok: bool)
    modifies sum
    ensures ok <==> Finishable(fl, old(sum[..]), compensation, factor)
    ensures ok ==> forall i :: 0 <= i < sum.Length ==>
                     FinishEntry(fl, old(sum[..])[i], compensation[i], factor) == Some(sum[i])
    ensures !ok ==> sum[..] == old(sum[..])
  {
    if sum.Length != |compensation| || !fl.finite(factor) {
      return false;
    }
    hide FinishEntry;
    for i := 0 to sum.Length
      invariant forall j :: 0 <= j < i ==> FinishEntry(fl, sum[j], compensation[j], factor).Some?
    {
      if FinishEntry(fl, sum[i], compensation[i], factor).None? {
        assert FinishEntry(fl, old(sum[..])[i], compensation[i], factor).None?;
        return false;
      }
    }
    ghost var before := sum[..];
    for i := 0 to sum.Length
      invariant forall j :: 0 <= j < i ==> FinishEntry(fl, before[j], compensation[j], factor) == Some(sum[j])
      invariant forall j :: i <= j < sum.Length ==> sum[j] == before[j]
    {
      sum[i] := FinishEntry(fl, sum[i], compensation[i], factor).value;
    }
    return true;
  }

  // ---------- what the correction recovers ----------

  /** The rounding error of a sum can be recovered from its larger operand: the law
      of Dekker's fast two-sum, for values read as real numbers. One of two operands
      always dominates, and addition commutes. */
  ghost predicate FastTwoSum<F(!new)>(fl: Rounding<F>, value: F -> real) {
    && (forall a, b :: fl.dominates(a, b) || fl.dominates(b, a))
    && (forall a, b :: fl.add(a, b) == fl.add(b, a))
    && (forall a, b :: fl.finite(fl.add(a, b)) && fl.dominates(a, b) ==>
          value(fl.add(fl.sub(a, fl.add(a, b)), b)) == value(a) + value(b) - value(fl.add(a, b)))
  }

  /** The correction of an accepted addition is exactly what rounding took from the
      sum, whichever operand is larger; the compensation adds it up. */
  lemma CorrectionIsExact<F(!new)>(fl: Rounding<F>, value: F -> real, sum: F, compensation: F, addend: F)
    returns (correction: F)
    requires FastTwoSum(fl, value) && CompensatedAdd(fl, sum, compensation, addend).Some?
    ensures var (total, corrected) := CompensatedAdd(fl, sum, compensation, addend).value;
            && total == fl.add(sum, addend) && corrected == fl.add(compensation, correction)
            && value(total) + value(correction) == value(sum) + value(addend)
  {
    var total := fl.add(sum, addend);
    correction := if fl.dominates(sum, addend) then fl.add(fl.sub(sum, total), addend)
                  else fl.add(fl.sub(addend, total), sum);
  }

  // ---------- exact arithmetic ----------

  /** Real numbers never overflow and never round. */
  function Exact(): Rounding<real> {
    Rounding(0.0, (a, b) => a + b, (a, b) => a - b, (a, b) => a * b, a => true,
             (a, b) => (if a < 0.0 then -a else a) >= (if b < 0.0 then -b else b))
  }

  /** The accumulator's arithmetic for one entry of the gradient. */
  function EntryArithmetic(): Arithmetic<real> {
    Arithmetic(0.0, (s, c, a) => CompensatedAdd(Exact(), s, c, a),
               (s, c, n) => if n == 0 then None else FinishEntry(Exact(), s, c, 1.0 / n as real))
  }

  function Total(values: seq<real>): real {
    if values == [] then 0.0 else Total(values[..|values| - 1]) + values[|values| - 1]
  }

  /** Without rounding the compensation stays zero. */
  lemma {:induction false} ExactFold(values: seq<real>)
    ensures Fold(EntryArithmetic(), values) == Some((Total(values), 0.0))
  {
    if values != [] {
      ExactFold(values[..|values| - 1]);
    }
  }

  /** So a batch gradient is the mean of its sample gradients, entry by entry. */
  lemma ExactMean(values: seq<real>)
    requires values != []
    ensures Mean(EntryArithmetic(), values).Some?
    ensures Mean(EntryArithmetic(), values).value * |values| as real == Total(values)
  {
    ExactFold(values);
    var n, t := |values| as real, Total(values);
    assert ((t + 0.0) * (1.0 / n)) * n == t by {
      assert (1.0 / n) * n == 1.0;
    }
  }
}
