/** Activation functions over the reals, lifted to dual numbers branch by branch,
    and their backward pass. */
module Activations {
  import opened Calculus

  datatype Activation = Linear | Sigmoid | Tanh | Relu | LeakyRelu(alpha: real) | Elu(alpha: real) | Softmax

  // ---------- one value at a time ----------

  function ApplyScalar(f: Library, act: Activation, x: real): real
    requires act != Softmax && f.exp(x) > 0.0 && f.exp(-x) > 0.0
  {
    match act
    case Linear => x
    case Sigmoid => if x >= 0.0 then Div(1.0, 1.0 + f.exp(-x)) else Div(f.exp(x), 1.0 + f.exp(x))
    case Tanh => f.tanh(x)
    case Relu => if x > 0.0 then x else 0.0
    case LeakyRelu(alpha) => if x >= 0.0 then x else Mul(alpha, x)
    case Elu(alpha) => if x >= 0.0 then x else Mul(alpha, f.exp(x) - 1.0)
    case Softmax => assert false; 0.0
  }

  /** The same branches in dual numbers. */
  function DualScalar(f: Library, act: Activation, x: Dual): Dual
    requires act != Softmax && f.exp(x.v) > 0.0 && f.exp(-x.v) > 0.0
  {
    match act
    case Linear => x
    case Sigmoid =>
      if x.v >= 0.0 then Over(Const(1.0), Plus(Const(1.0), Exp(f, Negated(x))))
      else Over(Exp(f, x), Plus(Const(1.0), Exp(f, x)))
    case Tanh => Calculus.Tanh(f, x)
    case Relu => if x.v > 0.0 then x else Const(0.0)
    case LeakyRelu(alpha) => if x.v >= 0.0 then x else Times(Const(alpha), x)
    case Elu(alpha) => if x.v >= 0.0 then x else Times(Const(alpha), Minus(Exp(f, x), Const(1.0)))
    case Softmax => assert false; Const(0.0)
  }

  /** The derivative that the backward pass computes from what it stored. */
  function Derivative(act: Activation, z: real, a: real): real {
    match act
    case Linear => 1.0
    case Sigmoid => Mul(a, 1.0 - a)
    case Tanh => 1.0 - Mul(a, a)
    case Relu => if z > 0.0 then 1.0 else 0.0
    case LeakyRelu(alpha) => if z >= 0.0 then 1.0 else alpha
    case Elu(alpha) => if z >= 0.0 then 1.0 else a + alpha
    case Softmax => 0.0
  }

  /** The stored activation suffices: the backward derivative is the tangent of the
      forward code. */
  lemma ScalarTangent(f: Library, act: Activation, x: Dual)
    requires act != Softmax && Lawful(f)
    ensures var a := ApplyScalar(f, act, x.v);
            DualScalar(f, act, x) == Dual(a, Mul(x.d, Derivative(act, x.v, a)))
  {
    match act {
      case Sigmoid =>
        if x.v >= 0.0 {
          FallingSigmoid(f.exp(-x.v), x.d);
        } else {
          RisingSigmoid(f.exp(x.v), x.d);
        }
      case Tanh =>
        MulCommutes(1.0 - Mul(f.tanh(x.v), f.tanh(x.v)), x.d);
      case LeakyRelu(alpha) =>
        MulCommutes(alpha, x.d);
      case Elu(alpha) =>
        var e := f.exp(x.v);
        MulAssociates(alpha, e, x.d);
        MulDistributes(alpha, e, 1.0);
        MulCommutes(x.d, Mul(alpha, e));
      case _ =>
    }
  }

  /** 1 / (1 + e) where e = exp(-x). */
  lemma FallingSigmoid(e: real, d: real)
    requires e > 0.0
    ensures var q := Div(1.0, 1.0 + e);
            Div(0.0 - Mul(q, 0.0 + Mul(e, -d)), 1.0 + e) == Mul(d, Mul(q, 1.0 - q))
  {
    var b := 1.0 + e;
    var q := Div(1.0, b);
    DivIsMul(1.0, b);
    DivIsMul(0.0 - Mul(q, Mul(e, -d)), b);
    assert q * b == 1.0;
    assert 1.0 - q == q * e;
    assert (0.0 - q * (e * (-d))) * q == d * (q * (q * e));
  }

  /** e / (1 + e) where e = exp(x). */
  lemma RisingSigmoid(e: real, d: real)
    requires e > 0.0
    ensures var q := Div(e, 1.0 + e);
            Div(Mul(e, d) - Mul(q, 0.0 + Mul(e, d)), 1.0 + e) == Mul(d, Mul(q, 1.0 - q))
  {
    var b := 1.0 + e;
    var r, q := Div(1.0, b), Div(e, b);
    DivIsMul(1.0, b);
    DivIsMul(e, b);
    DivIsMul(Mul(e, d) - Mul(q, Mul(e, d)), b);
    assert r * b == 1.0;
    assert q == e * r;
    assert 1.0 - q == r;
    assert (e * d - q * (e * d)) * r == d * (q * (1.0 - q)) by {
      assert e * d - q * (e * d) == (e * d) * (1.0 - q);
      assert (e * d) * r * r == d * ((e * r) * r);
    }
  }

  // ---------- softmax ----------

  /** The running maximum of the first n entries. */
  function MaxOf(z: seq<real>, n: nat): real
    requires 0 < n <= |z|
  {
    if n == 1 then z[0] else if z[n - 1] > MaxOf(z, n - 1) then z[n - 1] else MaxOf(z, n - 1)
  }

  function DualMax(z: Vec, n: nat): (m: Dual)
    requires z.Valid() && 0 < n <= |z.v|
    ensures m.v == MaxOf(z.v, n)
  {
    if n == 1 then z.At(0) else if z.v[n - 1] > DualMax(z, n - 1).v then z.At(n - 1) else DualMax(z, n - 1)
  }

  function Exps(f: Library, z: seq<real>): (e: seq<real>)
    requires |z| > 0
    ensures |e| == |z|
  {
    seq(|z|, i requires 0 <= i < |z| => f.exp(z[i] - MaxOf(z, |z|)))
  }

  function SumOf(s: seq<real>, n: nat): real
    requires n <= |s|
  {
    if n == 0 then 0.0 else SumOf(s, n - 1) + s[n - 1]
  }

  function DualSum(s: seq<Dual>, n: nat): Dual
    requires n <= |s|
  {
    if n == 0 then Const(0.0) else Plus(DualSum(s, n - 1), s[n - 1])
  }

  lemma {:induction false} SumPositive(f: Library, z: seq<real>, n: nat)
    requires Lawful(f) && 0 < n <= |z|
    ensures SumOf(Exps(f, z), n) > 0.0
  {
    if n > 1 {
      SumPositive(f, z, n - 1);
    }
  }

  function Probabilities(f: Library, z: seq<real>): (p: seq<real>)
    requires |z| > 0 && SumOf(Exps(f, z), |z|) != 0.0
    ensures |p| == |z|
  {
    var e := Exps(f, z);
    seq(|z|, i requires 0 <= i < |z| => Div(e[i], SumOf(e, |z|)))
  }

  function DualExps(f: Library, z: Vec): (e: seq<Dual>)
    requires z.Valid() && |z.v| > 0
    ensures |e| == |z.v|
  {
    seq(|z.v|, i requires 0 <= i < |z.v| => Exp(f, Minus(z.At(i), DualMax(z, |z.v|))))
  }

  function DualProbabilities(f: Library, z: Vec): (p: seq<Dual>)
    requires z.Valid() && |z.v| > 0 && DualSum(DualExps(f, z), |z.v|).v != 0.0
    ensures |p| == |z.v|
  {
    var e := DualExps(f, z);
    seq(|z.v|, i requires 0 <= i < |z.v| => Over(e[i], DualSum(e, |z.v|)))
  }

  /** The tangents relative to the maximum. */
  ghost function Shifted(z: Vec): (u: seq<real>)
    requires z.Valid() && |z.v| > 0
    ensures |u| == |z.v| && forall i :: 0 <= i < |u| ==> u[i] == z.d[i] - DualMax(z, |z.v|).d
  {
    seq(|z.v|, i requires 0 <= i < |z.v| => z.d[i] - DualMax(z, |z.v|).d)
  }

  lemma ExpTangent(f: Library, z: Vec, i: nat)
    requires z.Valid() && i < |z.v|
    ensures DualExps(f, z)[i] == Dual(Exps(f, z.v)[i], Mul(Exps(f, z.v)[i], Shifted(z)[i]))
  {
    hide Mul, DualMax, MaxOf;
  }

  lemma {:induction false} DualSumTangent(f: Library, z: Vec, n: nat)
    requires z.Valid() && 0 < |z.v| && n <= |z.v|
    ensures DualSum(DualExps(f, z), n) == Dual(SumOf(Exps(f, z.v), n), Dot(Exps(f, z.v), Shifted(z), n))
  {
    hide Mul, DualMax, MaxOf, DualExps, Exps, Shifted;
    if n > 0 {
      DualSumTangent(f, z, n - 1);
      ExpTangent(f, z, n - 1);
    }
  }

  lemma {:induction false} DotShifted(z: Vec, p: seq<real>, n: nat)
    requires z.Valid() && 0 < |z.v| == |p| && n <= |p|
    ensures Dot(p, Shifted(z), n) == Dot(p, z.d, n) - Mul(DualMax(z, |z.v|).d, SumOf(p, n))
  {
    var m := DualMax(z, |z.v|).d;
    if n == 0 {
      assert Mul(m, 0.0) == 0.0;
    } else {
      DotShifted(z, p, n - 1);
      MulDistributes(p[n - 1], z.d[n - 1], m);
      MulDistributes(m, SumOf(p, n - 1), p[n - 1]);
      MulCommutes(m, p[n - 1]);
      hide Mul, DualMax;
    }
  }

  lemma {:induction false} SumScaled(e: seq<real>, p: seq<real>, scale: real, n: nat)
    requires |p| == |e| && n <= |e| && forall i :: 0 <= i < n ==> p[i] == Mul(scale, e[i])
    ensures SumOf(p, n) == Mul(scale, SumOf(e, n))
  {
    if n == 0 {
      assert Mul(scale, 0.0) == 0.0;
    } else {
      SumScaled(e, p, scale, n - 1);
      MulDistributes(scale, SumOf(e, n - 1), e[n - 1]);
      hide Mul;
    }
  }

  /** Probabilities are the exponentials over their sum, and sum to one. */
  lemma ProbabilityFacts(f: Library, z: Vec)
    requires Lawful(f) && z.Valid() && |z.v| > 0
    ensures var n, e := |z.v|, Exps(f, z.v);
            && SumOf(e, n) > 0.0
            && var p, r := Probabilities(f, z.v), Div(1.0, SumOf(e, n));
               && (forall i :: 0 <= i < n ==> p[i] == Mul(r, e[i]))
               && SumOf(p, n) == 1.0
               && Dot(p, Shifted(z), n) == Mul(r, Dot(e, Shifted(z), n))
  {
    var n, e := |z.v|, Exps(f, z.v);
    SumPositive(f, z.v, n);
    var s := SumOf(e, n);
    var p, r := Probabilities(f, z.v), Div(1.0, s);
    forall i | 0 <= i < n ensures p[i] == Mul(r, e[i]) {
      DivIsMul(e[i], s);
      MulCommutes(r, e[i]);
    }
    DivIsMul(1.0, s);
    hide Mul, Div, Exps, DualMax, Probabilities;
    SumScaled(e, p, r, n);
    DotScaled(e, Shifted(z), r, p, n);
  }

  /** The tangent of softmax: p_i times the deviation of its input's tangent from
      their average under p; the subtracted maximum leaves no trace. */
  lemma SoftmaxTangent(f: Library, z: Vec, i: nat)
    requires Lawful(f) && z.Valid() && i < |z.v|
    ensures SumOf(Exps(f, z.v), |z.v|) > 0.0 && DualSum(DualExps(f, z), |z.v|).v > 0.0
    ensures var p := Probabilities(f, z.v);
            DualProbabilities(f, z)[i] == Dual(p[i], Mul(p[i], z.d[i] - Dot(p, z.d, |z.v|)))
  {
    hide Mul, Div, Exps, DualExps, DualMax, Dot, SumOf, DualSum, Shifted;
    var n := |z.v|;
    ProbabilityFacts(f, z);
    DualSumTangent(f, z, n);
    ExpTangent(f, z, i);
    var e, p := Exps(f, z.v), Probabilities(f, z.v);
    var s, m := SumOf(e, n), DualMax(z, n).d;
    DotShifted(z, p, n);
    assert Mul(m, 1.0) == m by {
      TimesOne(m);
    }
    var average := Dot(p, z.d, n);
    var u := Shifted(z)[i];
    assert u - (average - m) == z.d[i] - average;
    QuotientStep(e[i], u, Dot(e, Shifted(z), n), s, p[i], average - m);
    assert DualProbabilities(f, z)[i] == Over(DualExps(f, z)[i], DualSum(DualExps(f, z), n));
  }

  lemma TimesOne(m: real)
    ensures Mul(m, 1.0) == m
  {
  }

  lemma QuotientStep(e: real, u: real, total: real, s: real, p: real, average: real)
    requires s > 0.0 && p == Div(e, s) && average == Mul(Div(1.0, s), total)
    ensures Div(Mul(e, u) - Mul(p, total), s) == Mul(p, u - average)
  {
    var r := Div(1.0, s);
    DivIsMul(e, s);
    DivIsMul(Mul(e, u) - Mul(p, total), s);
    assert p == e * r;
    assert (e * u - p * total) * r == p * u - p * (r * total) by {
      assert (e * u) * r == (e * r) * u;
      assert (p * total) * r == p * (r * total);
    }
    assert p * u - p * average == p * (u - average);
  }

  // ---------- whole layers ----------

  function Apply(f: Library, act: Activation, z: seq<real>): (a: seq<real>)
    requires Lawful(f) && |z| > 0
    ensures |a| == |z|
  {
    if act == Softmax then
      SumPositive(f, z, |z|);
      Probabilities(f, z)
    else
      seq(|z|, i requires 0 <= i < |z| => ApplyScalar(f, act, z[i]))
  }

  function DualApply(f: Library, act: Activation, z: Vec): (a: Vec)
    requires Lawful(f) && z.Valid() && |z.v| > 0
    ensures a.Valid() && |a.v| == |z.v|
  {
    if act == Softmax then
      SoftmaxTangent(f, z, 0);
      VecOf(DualProbabilities(f, z))
    else
      VecOf(seq(|z.v|, i requires 0 <= i < |z.v| => DualScalar(f, act, z.At(i))))
  }

  /** The backward pass: gradients with respect to the inputs from gradients with
      respect to the outputs. */
  function Backward(act: Activation, z: seq<real>, a: seq<real>, g: seq<real>): (r: seq<real>)
    requires |z| == |a| == |g|
    ensures |r| == |z|
  {
    if act == Softmax then
      seq(|z|, i requires 0 <= i < |z| => Mul(a[i], g[i] - Dot(g, a, |z|)))
    else
      seq(|z|, i requires 0 <= i < |z| => Mul(g[i], Derivative(act, z[i], a[i])))
  }

  lemma ApplyValues(f: Library, act: Activation, z: Vec)
    requires Lawful(f) && z.Valid() && |z.v| > 0
    ensures DualApply(f, act, z).v == Apply(f, act, z.v)
  {
    forall i | 0 <= i < |z.v|
      ensures DualApply(f, act, z).v[i] == Apply(f, act, z.v)[i]
    {
      if act == Softmax {
        SoftmaxTangent(f, z, i);
      } else {
        ScalarTangent(f, act, z.At(i));
      }
    }
  }

  /** Every activation's backward pass is the transpose of its tangent. */
  lemma ActivationAdjoint(f: Library, act: Activation, z: Vec, g: seq<real>)
    requires Lawful(f) && z.Valid() && 0 < |z.v| == |g|
    ensures Inner(DualApply(f, act, z).d, g) == Inner(z.d, Backward(act, z.v, Apply(f, act, z.v), g))
  {
    if act == Softmax {
      SoftmaxAdjoint(f, z, g);
    } else {
      var a, r, d := Apply(f, act, z.v), Backward(act, z.v, Apply(f, act, z.v), g), DualApply(f, act, z).d;
      forall i | 0 <= i < |z.v|
        ensures Mul(d[i], g[i]) == Mul(z.d[i], r[i])
      {
        ScalarTangent(f, act, z.At(i));
        var k := Derivative(act, z.v[i], a[i]);
        MulAssociates(z.d[i], k, g[i]);
        MulCommutes(k, g[i]);
      }
      hide Mul, Derivative;
      DotTermwise(d, g, z.d, r, |z.v|);
    }
  }

  lemma SoftmaxAdjoint(f: Library, z: Vec, g: seq<real>)
    requires Lawful(f) && z.Valid() && 0 < |z.v| == |g|
    ensures Inner(DualApply(f, Softmax, z).d, g) == Inner(z.d, Backward(Softmax, z.v, Apply(f, Softmax, z.v), g))
  {
    var n, p := |z.v|, Apply(f, Softmax, z.v);
    hide DualApply, Backward, Apply, Dot, Mul;
    var d, r := DualApply(f, Softmax, z).d, Backward(Softmax, z.v, p, g);
    var s, t := Dot(p, z.d, n), Dot(g, p, n);
    forall i | 0 <= i < n
      ensures d[i] == Mul(p[i], z.d[i]) + Mul(-s, p[i]) && r[i] == Mul(p[i], g[i]) + Mul(-t, p[i])
    {
      SoftmaxForwardEntry(f, z, i);
      SoftmaxBackwardEntry(z.v, p, g, i);
      Deviation(p[i], z.d[i], s);
      Deviation(p[i], g[i], t);
    }
    SoftmaxPairing(p, z.d, g, d, r, s, t);
  }

  lemma SoftmaxForwardEntry(f: Library, z: Vec, i: nat)
    requires Lawful(f) && z.Valid() && i < |z.v|
    ensures var p := Apply(f, Softmax, z.v);
            DualApply(f, Softmax, z).d[i] == Mul(p[i], z.d[i] - Dot(p, z.d, |p|))
  {
    SoftmaxTangent(f, z, i);
    hide Mul, Dot, Probabilities, DualProbabilities, Exps, DualExps, SumOf, DualSum;
  }

  lemma SoftmaxBackwardEntry(z: seq<real>, p: seq<real>, g: seq<real>, i: nat)
    requires i < |z| == |p| == |g|
    ensures Backward(Softmax, z, p, g)[i] == Mul(p[i], g[i] - Dot(g, p, |p|))
  {
    hide Mul, Dot;
  }

  lemma Deviation(p: real, x: real, s: real)
    ensures Mul(p, x - s) == Mul(p, x) + Mul(-s, p)
  {
    MulDistributes(p, x, s);
    Opposite(p, s);
  }

  lemma Opposite(p: real, s: real)
    ensures Mul(-s, p) == -Mul(p, s)
  {
  }

  /** Both pairings are the sum of p z' g minus the product of the two averages. */
  lemma SoftmaxPairing(p: seq<real>, dz: seq<real>, g: seq<real>, d: seq<real>, r: seq<real>, s: real, t: real)
    requires |p| == |dz| == |g| == |d| == |r|
    requires s == Dot(p, dz, |p|) && t == Dot(g, p, |p|)
    requires forall i :: 0 <= i < |p| ==> d[i] == Mul(p[i], dz[i]) + Mul(-s, p[i])
    requires forall i :: 0 <= i < |p| ==> r[i] == Mul(p[i], g[i]) + Mul(-t, p[i])
    ensures Inner(d, g) == Inner(dz, r)
  {
    hide Mul;
    var n := |p|;
    var pdz := seq(n, i requires 0 <= i < n => Mul(p[i], dz[i]));
    var pg := seq(n, i requires 0 <= i < n => Mul(p[i], g[i]));
    DotCombination(g, d, pdz, -s, p, n);
    DotCombination(dz, r, pg, -t, p, n);
    forall i | 0 <= i < n ensures Mul(g[i], pdz[i]) == Mul(dz[i], pg[i]) {
      MulAssociates(p[i], dz[i], g[i]);
      MulCommutes(g[i], pdz[i]);
      MulAssociates(dz[i], p[i], g[i]);
      MulCommutes(dz[i], p[i]);
    }
    DotTermwise(g, pdz, dz, pg, n);
    DotCommutes(d, g, n);
    DotCommutes(p, dz, n);
    assert Mul(-s, t) == Mul(-t, s) by {
      Opposite(t, s);
      Opposite(s, t);
      MulCommutes(s, t);
    }
  }
}
