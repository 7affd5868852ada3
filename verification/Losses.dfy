/** Losses evaluated from the logits, lifted to dual numbers, and the output
    gradients that start the reverse pass. */
module Losses {
  import opened Options
  import opened Calculus
  import opened Activations

  datatype Loss = Mse | BinaryCrossEntropy | CategoricalCrossEntropy

  /** The output activation and width that a loss accepts. */
  predicate OutputAccepted(loss: Loss, act: Activation, count: nat) {
    match loss
    case Mse => count > 0
    case BinaryCrossEntropy => count > 0 && act == Sigmoid
    case CategoricalCrossEntropy => count > 1 && act == Softmax
  }

  /** The targets that a loss accepts: bits, or exactly one chosen class. */
  predicate TargetsAccepted(loss: Loss, t: seq<real>) {
    match loss
    case Mse => t != []
    case BinaryCrossEntropy => t != [] && forall i :: 0 <= i < |t| ==> t[i] == 0.0 || t[i] == 1.0
    case CategoricalCrossEntropy =>
      && (forall i :: 0 <= i < |t| ==> t[i] == 0.0 || t[i] == 1.0)
      && exists i :: 0 <= i < |t| && OneHot(t, i)
  }

  predicate OneHot(t: seq<real>, k: nat) {
    k < |t| && forall i :: 0 <= i < |t| ==> t[i] == if i == k then 1.0 else 0.0
  }

  // ---------- squared error ----------

  function SquaredSum(a: seq<real>, t: seq<real>, n: nat): real
    requires n <= |a| && n <= |t|
  {
    if n == 0 then 0.0 else SquaredSum(a, t, n - 1) + Mul(a[n - 1] - t[n - 1], a[n - 1] - t[n - 1])
  }

  function DualSquaredSum(a: Vec, t: seq<real>, n: nat): Dual
    requires a.Valid() && n <= |a.v| && n <= |t|
  {
    if n == 0 then
      Const(0.0)
    else
      var difference := Minus(a.At(n - 1), Const(t[n - 1]));
      Plus(DualSquaredSum(a, t, n - 1), Times(difference, difference))
  }

  function Differences(a: seq<real>, t: seq<real>): (d: seq<real>)
    requires |a| == |t|
    ensures |d| == |a| && forall i :: 0 <= i < |a| ==> d[i] == a[i] - t[i]
  {
    seq(|a|, i requires 0 <= i < |a| => a[i] - t[i])
  }

  lemma {:induction false} SquaredTangent(a: Vec, t: seq<real>, n: nat)
    requires a.Valid() && |a.v| == |t| && n <= |t|
    ensures DualSquaredSum(a, t, n).v == SquaredSum(a.v, t, n)
    ensures DualSquaredSum(a, t, n).d == 2.0 * Dot(a.d, Differences(a.v, t), n)
  {
    hide Mul;
    if n > 0 {
      SquaredTangent(a, t, n - 1);
      MulCommutes(a.d[n - 1], a.v[n - 1] - t[n - 1]);
    }
  }

  // ---------- binary cross-entropy ----------

  /** fmax(z, 0) - z t + log1p(exp(-|z|)). */
  function BinaryTerm(f: Library, z: real, t: real): real
    requires Lawful(f)
  {
    var magnitude := if z >= 0.0 then z else -z;
    (if z >= 0.0 then z else 0.0) - Mul(z, t) + f.log(1.0 + f.exp(-magnitude))
  }

  function DualBinaryTerm(f: Library, z: Dual, t: real): Dual
    requires Lawful(f)
  {
    var magnitude := if z.v >= 0.0 then z else Negated(z);
    Plus(Minus(if z.v >= 0.0 then z else Const(0.0), Times(z, Const(t))),
         Log(f, Plus(Const(1.0), Exp(f, Negated(magnitude)))))
  }

  /** The logistic loss has the slope sigmoid(z) - t on both of its branches. */
  lemma BinaryTangent(f: Library, z: Dual, t: real)
    requires Lawful(f)
    ensures DualBinaryTerm(f, z, t)
         == Dual(BinaryTerm(f, z.v, t), Mul(z.d, ApplyScalar(f, Sigmoid, z.v) - t))
  {
    if z.v >= 0.0 {
      var e := f.exp(-z.v);
      UpperSlope(e, z.d, t, z.v);
    } else {
      var e := f.exp(z.v);
      assert -(-z.v) == z.v && -(-z.d) == z.d;
      LowerSlope(e, z.d, t, z.v);
    }
  }

  lemma UpperSlope(e: real, d: real, t: real, v: real)
    requires e > 0.0
    ensures d - (Mul(d, t) + Mul(v, 0.0)) + Div(0.0 + Mul(e, -d), 1.0 + e) == Mul(d, Div(1.0, 1.0 + e) - t)
  {
    var r := Div(1.0, 1.0 + e);
    DivIsMul(1.0, 1.0 + e);
    DivIsMul(Mul(e, -d), 1.0 + e);
    assert r * (1.0 + e) == 1.0;
    assert 1.0 - e * r == r;
    assert (e * (-d)) * r == -(d * (e * r));
    assert d - d * (e * r) == d * (1.0 - e * r);
    assert d * (r - t) == d * r - d * t;
  }

  lemma LowerSlope(e: real, d: real, t: real, v: real)
    requires e > 0.0
    ensures 0.0 - (Mul(d, t) + Mul(v, 0.0)) + Div(0.0 + Mul(e, d), 1.0 + e) == Mul(d, Div(e, 1.0 + e) - t)
  {
    var r := Div(1.0, 1.0 + e);
    DivIsMul(e, 1.0 + e);
    DivIsMul(Mul(e, d), 1.0 + e);
    assert (e * d) * r == d * (e * r);
    assert d * (e * r - t) == d * (e * r) - d * t;
  }

  function BinarySum(f: Library, z: seq<real>, t: seq<real>, n: nat): real
    requires Lawful(f) && n <= |z| && n <= |t|
  {
    if n == 0 then 0.0 else BinarySum(f, z, t, n - 1) + BinaryTerm(f, z[n - 1], t[n - 1])
  }

  function DualBinarySum(f: Library, z: Vec, t: seq<real>, n: nat): Dual
    requires Lawful(f) && z.Valid() && n <= |z.v| && n <= |t|
  {
    if n == 0 then Const(0.0) else Plus(DualBinarySum(f, z, t, n - 1), DualBinaryTerm(f, z.At(n - 1), t[n - 1]))
  }

  lemma {:induction false} BinarySumTangent(f: Library, z: Vec, t: seq<real>, n: nat)
    requires Lawful(f) && z.Valid() && 0 < |z.v| == |t| && n <= |t|
    ensures DualBinarySum(f, z, t, n)
         == Dual(BinarySum(f, z.v, t, n), Dot(z.d, Differences(Apply(f, Sigmoid, z.v), t), n))
  {
    hide Mul, BinaryTerm, DualBinaryTerm, ApplyScalar;
    if n > 0 {
      BinarySumTangent(f, z, t, n - 1);
      BinaryTangent(f, z.At(n - 1), t[n - 1]);
    }
  }

  // ---------- categorical cross-entropy ----------

  /** The last position whose target is one. */
  function Selected(t: seq<real>, n: nat): Option<nat>
    requires n <= |t|
  {
    if n == 0 then None else if t[n - 1] == 1.0 then Some(n - 1) else Selected(t, n - 1)
  }

  lemma {:induction false} SelectedIsHot(t: seq<real>, k: nat, n: nat)
    requires OneHot(t, k) && n <= |t|
    ensures Selected(t, n) == if k < n then Some(k) else None
  {
    if n > 0 {
      SelectedIsHot(t, k, n - 1);
    }
  }

  /** maximum + log(sum of exponentials) - selected logit. */
  function CategoricalValue(f: Library, z: seq<real>, t: seq<real>): real
    requires Lawful(f) && 0 < |z| == |t|
  {
    SumPositive(f, z, |z|);
    var selected := match Selected(t, |t|) case None => 0.0 case Some(k) => SelectedEntry(z, t, k);
    MaxOf(z, |z|) + f.log(SumOf(Exps(f, z), |z|)) - selected
  }

  function SelectedEntry(z: seq<real>, t: seq<real>, k: nat): real
    requires |z| == |t|
  {
    if k < |z| then z[k] else 0.0
  }

  function DualCategorical(f: Library, z: Vec, t: seq<real>): Dual
    requires Lawful(f) && z.Valid() && 0 < |z.v| == |t|
  {
    SoftmaxTangent(f, z, 0);
    var selected := match Selected(t, |t|)
                    case None => Const(0.0)
                    case Some(k) => if k < |z.v| then z.At(k) else Const(0.0);
    Minus(Plus(DualMax(z, |z.v|), Log(f, DualSum(DualExps(f, z), |z.v|))), selected)
  }

  lemma {:induction false} DotOneHot(x: seq<real>, t: seq<real>, k: nat, n: nat)
    requires OneHot(t, k) && |x| == |t| && n <= |t|
    ensures Dot(x, t, n) == if k < n then x[k] else 0.0
  {
    if n > 0 {
      DotOneHot(x, t, k, n - 1);
      assert Mul(x[n - 1], 1.0) == x[n - 1] && Mul(x[n - 1], 0.0) == 0.0;
    }
  }

  lemma {:induction false} DotDifferences(x: seq<real>, a: seq<real>, t: seq<real>, n: nat)
    requires |x| == |a| == |t| && n <= |t|
    ensures Dot(x, Differences(a, t), n) == Dot(x, a, n) - Dot(x, t, n)
  {
    if n > 0 {
      DotDifferences(x, a, t, n - 1);
      MulDistributes(x[n - 1], a[n - 1], t[n - 1]);
      hide Mul;
    }
  }

  /** Categorical cross-entropy has the slope p - t. */
  lemma CategoricalTangent(f: Library, z: Vec, t: seq<real>, k: nat)
    requires Lawful(f) && z.Valid() && 0 < |z.v| == |t| && OneHot(t, k)
    ensures DualCategorical(f, z, t)
         == Dual(CategoricalValue(f, z.v, t), Dot(z.d, Differences(Apply(f, Softmax, z.v), t), |t|))
  {
    var n, p := |t|, Apply(f, Softmax, z.v);
    var e, m := Exps(f, z.v), DualMax(z, n);
    SelectedIsHot(t, k, n);
    ProbabilityFacts(f, z);
    DualSumTangent(f, z, n);
    DotShifted(z, p, n);
    DotDifferences(z.d, p, t, n);
    DotOneHot(z.d, t, k, n);
    DotCommutes(p, z.d, n);
    var s, total := SumOf(e, n), Dot(e, Shifted(z), n);
    DivIsMul(total, s);
    MulCommutes(total, Div(1.0, s));
    TimesOne(m.d);
    hide Dot, Mul, Div, SumOf, Exps, DualExps, DualSum, DualMax, MaxOf, Differences, OneHot, Selected;
  }

  // ---------- values and gradients ----------

  function LossValue(f: Library, loss: Loss, z: seq<real>, a: seq<real>, t: seq<real>): real
    requires Lawful(f) && 0 < |z| == |a| == |t|
  {
    match loss
    case Mse => Div(SquaredSum(a, t, |t|), |t| as real)
    case BinaryCrossEntropy => Div(BinarySum(f, z, t, |t|), |t| as real)
    case CategoricalCrossEntropy => CategoricalValue(f, z, t)
  }

  function DualLoss(f: Library, loss: Loss, z: Vec, a: Vec, t: seq<real>): Dual
    requires Lawful(f) && z.Valid() && a.Valid() && 0 < |z.v| == |a.v| == |t|
  {
    match loss
    case Mse => Over(DualSquaredSum(a, t, |t|), Const(|t| as real))
    case BinaryCrossEntropy => Over(DualBinarySum(f, z, t, |t|), Const(|t| as real))
    case CategoricalCrossEntropy => DualCategorical(f, z, t)
  }

  /** The gradient with respect to one output; None where it is singular. */
  function LossSlope(loss: Loss, a: real, t: real, count: nat): Option<real>
    requires count > 0
  {
    match loss
    case Mse => Some(Mul(Div(2.0, count as real), a - t))
    case BinaryCrossEntropy =>
      if 0.0 < a < 1.0 then Some(Mul(Div(1.0, count as real), Div(1.0 - t, 1.0 - a) - Div(t, a))) else None
    case CategoricalCrossEntropy =>
      if t == 0.0 then Some(0.0) else if a > 0.0 then Some(Div(-1.0, a)) else None
  }

  predicate Slopes(loss: Loss, a: seq<real>, t: seq<real>) {
    0 < |a| == |t| && forall i :: 0 <= i < |a| ==> LossSlope(loss, a[i], t[i], |a|).Some?
  }

  function LossGradient(loss: Loss, a: seq<real>, t: seq<real>): (g: seq<real>)
    requires Slopes(loss, a, t)
    ensures |g| == |a|
  {
    seq(|a|, i requires 0 <= i < |a| => LossSlope(loss, a[i], t[i], |a|).value)
  }

  /** The gradient with respect to the logits in one step. */
  function FusedGradient(loss: Loss, a: seq<real>, t: seq<real>): (g: seq<real>)
    requires loss != Mse && 0 < |a| == |t|
    ensures |g| == |a|
  {
    var factor := if loss == BinaryCrossEntropy then Div(1.0, |a| as real) else 1.0;
    seq(|a|, i requires 0 <= i < |a| => Mul(factor, a[i] - t[i]))
  }

  lemma MseSlopes(a: seq<real>, t: seq<real>)
    requires 0 < |a| == |t|
    ensures Slopes(Mse, a, t)
  {
  }

  /** Squared error: the tangent of the loss is the pairing with its gradient. */
  lemma MseAdjoint(f: Library, z: Vec, a: Vec, t: seq<real>)
    requires Lawful(f) && z.Valid() && a.Valid() && 0 < |z.v| == |a.v| == |t|
    ensures Slopes(Mse, a.v, t)
    ensures DualLoss(f, Mse, z, a, t)
         == Dual(LossValue(f, Mse, z.v, a.v, t), Inner(a.d, LossGradient(Mse, a.v, t)))
  {
    var n, c := |t|, |t| as real;
    var diff, g := Differences(a.v, t), LossGradient(Mse, a.v, t);
    SquaredTangent(a, t, n);
    var s := Dot(a.d, diff, n);
    DotScaled(diff, a.d, Div(2.0, c), g, n);
    DotCommutes(g, a.d, n);
    DotCommutes(diff, a.d, n);
    Doubled(s, c, Div(DualSquaredSum(a, t, n).v, c));
    hide Dot, Mul, Div, LossGradient, Differences;
  }

  lemma Doubled(s: real, c: real, q: real)
    requires c != 0.0
    ensures Div(2.0 * s - Mul(q, 0.0), c) == Mul(Div(2.0, c), s)
  {
    DivIsMul(2.0 * s, c);
    DivIsMul(2.0, c);
  }

  /** Cross-entropy: the tangent of the loss is the pairing of the logits' tangent
      with the fused gradient. */
  lemma FusedAdjoint(f: Library, loss: Loss, act: Activation, z: Vec, t: seq<real>)
    requires Lawful(f) && z.Valid() && 0 < |z.v| == |t|
    requires loss != Mse && OutputAccepted(loss, act, |t|) && TargetsAccepted(loss, t)
    ensures DualLoss(f, loss, z, DualApply(f, act, z), t)
         == Dual(LossValue(f, loss, z.v, Apply(f, act, z.v), t), Inner(z.d, FusedGradient(loss, Apply(f, act, z.v), t)))
  {
    var n, c, a := |t|, |t| as real, Apply(f, act, z.v);
    var diff, g := Differences(a, t), FusedGradient(loss, a, t);
    if loss == BinaryCrossEntropy {
      BinarySumTangent(f, z, t, n);
      DotScaled(diff, z.d, Div(1.0, c), g, n);
      DotCommutes(g, z.d, n);
      DotCommutes(diff, z.d, n);
      Averaged(Dot(z.d, diff, n), c, Div(BinarySum(f, z.v, t, n), c));
      hide Dot, Mul, Div, FusedGradient, Differences, Apply, DualBinarySum, BinarySum;
    } else {
      var k :| 0 <= k < |t| && OneHot(t, k);
      CategoricalTangent(f, z, t, k);
      forall i | 0 <= i < n ensures Mul(z.d[i], diff[i]) == Mul(z.d[i], g[i]) {
        MulCommutes(1.0, a[i] - t[i]);
        TimesOne(a[i] - t[i]);
      }
      DotTermwise(z.d, diff, z.d, g, n);
      hide Dot, Mul, Div, FusedGradient, Differences, Apply, DualCategorical, CategoricalValue;
    }
  }

  lemma Averaged(s: real, c: real, q: real)
    requires c != 0.0
    ensures Div(s - Mul(q, 0.0), c) == Mul(Div(1.0, c), s)
  {
    DivIsMul(s, c);
    MulCommutes(s, Div(1.0, c));
  }

  // ---------- fused against composed ----------

  /** For probabilities strictly between zero and one, the fused gradient is the
      loss gradient taken back through the output activation. */
  lemma FusedIsComposed(loss: Loss, act: Activation, z: seq<real>, a: seq<real>, t: seq<real>)
    requires loss != Mse && 0 < |z| == |a| == |t|
    requires OutputAccepted(loss, act, |t|) && TargetsAccepted(loss, t)
    requires forall i :: 0 <= i < |a| ==> 0.0 < a[i] < 1.0
    ensures Slopes(loss, a, t)
    ensures Backward(act, z, a, LossGradient(loss, a, t)) == FusedGradient(loss, a, t)
  {
    var g := LossGradient(loss, a, t);
    if loss == BinaryCrossEntropy {
      forall i | 0 <= i < |a|
        ensures Backward(act, z, a, g)[i] == FusedGradient(loss, a, t)[i]
      {
        BinaryComposition(a[i], t[i], Div(1.0, |a| as real));
      }
    } else {
      var k :| 0 <= k < |t| && OneHot(t, k);
      forall i | 0 <= i < |a| ensures g[i] == if i == k then Div(-1.0, a[k]) else 0.0 {
      }
      SingleTerm(g, a, k, |a|);
      DivIsMul(-1.0, a[k]);
      forall i | 0 <= i < |a|
        ensures Backward(act, z, a, g)[i] == FusedGradient(loss, a, t)[i]
      {
        CategoricalComposition(a[i], g[i], t[i], i == k);
      }
    }
  }

  lemma BinaryComposition(a: real, t: real, factor: real)
    requires 0.0 < a < 1.0
    ensures Mul(Mul(factor, Div(1.0 - t, 1.0 - a) - Div(t, a)), Mul(a, 1.0 - a)) == Mul(factor, a - t)
  {
    var p, q := Div(1.0 - t, 1.0 - a), Div(t, a);
    DivIsMul(1.0 - t, 1.0 - a);
    DivIsMul(t, a);
    var b := 1.0 - a;
    assert p * b == 1.0 - t && q * a == t;
    assert (p - q) * (a * b) == a * (p * b) - b * (q * a);
    assert a * (1.0 - t) - b * t == a - t;
    MulAssociates(factor, p - q, Mul(a, b));
  }

  lemma {:induction false} SingleTerm(g: seq<real>, a: seq<real>, k: nat, n: nat)
    requires |g| == |a| && k < |a| && n <= |a|
    requires forall i :: 0 <= i < |a| && i != k ==> g[i] == 0.0
    ensures Dot(g, a, n) == if k < n then Mul(g[k], a[k]) else 0.0
  {
    if n > 0 {
      SingleTerm(g, a, k, n - 1);
    }
  }

  lemma CategoricalComposition(a: real, g: real, t: real, chosen: bool)
    requires a > 0.0 && t == (if chosen then 1.0 else 0.0) && g == (if chosen then Div(-1.0, a) else 0.0)
    ensures Mul(a, g - (-1.0)) == Mul(1.0, a - t)
  {
    if chosen {
      DivIsMul(-1.0, a);
      MulCommutes(a, g);
    }
  }

  /** The loss gradient is singular exactly where a probability that it divides by
      is out of range. */
  lemma SlopesExistIff(loss: Loss, a: seq<real>, t: seq<real>)
    requires 0 < |a| == |t|
    ensures Slopes(loss, a, t) <==>
            (loss == BinaryCrossEntropy ==> forall i :: 0 <= i < |a| ==> 0.0 < a[i] < 1.0)
            && (loss == CategoricalCrossEntropy ==> forall i :: 0 <= i < |a| ==> t[i] == 0.0 || a[i] > 0.0)
  {
    if Slopes(loss, a, t) {
      forall i | 0 <= i < |a| ensures LossSlope(loss, a[i], t[i], |a|).Some? {
      }
    }
  }
}
