/** The numerically stable forms that the program evaluates are the textbook
    definitions: one logistic function on both branches, softmax without its shift
    by the maximum, and both cross-entropies as negative logarithms of
    probabilities. */
module StableForms {
  import opened Calculus
  import opened Activations
  import opened Losses

  /** The laws of exponential and logarithm. */
  ghost predicate Exponential(f: Library) {
    && (forall x :: f.exp(x) > 0.0 && f.log(f.exp(x)) == x)
    && (forall x, y :: f.exp(x + y) == Mul(f.exp(x), f.exp(y)))
    && (forall x :: x > 0.0 ==> f.exp(f.log(x)) == x)
  }

  lemma ExponentialIsLawful(f: Library)
    requires Exponential(f)
    ensures Lawful(f)
  {
  }

  lemma ExpOfSum(f: Library, x: real, y: real)
    requires Exponential(f)
    ensures f.exp(x + y) == Mul(f.exp(x), f.exp(y))
  {
  }

  lemma ExpOfZero(f: Library)
    requires Exponential(f)
    ensures f.exp(0.0) == 1.0
  {
    ExpOfSum(f, 0.0, 0.0);
    var e := f.exp(0.0);
    assert 0.0 + 0.0 == 0.0;
    assert e == e * e;
    assert e * (e - 1.0) == 0.0;
  }

  lemma ExpOfOpposite(f: Library, x: real)
    requires Exponential(f)
    ensures Mul(f.exp(x), f.exp(-x)) == 1.0
  {
    ExpOfSum(f, x, -x);
    ExpOfZero(f);
    hide Mul;
  }

  lemma LogOfProduct(f: Library, a: real, b: real)
    requires Exponential(f) && a > 0.0 && b > 0.0
    ensures Mul(a, b) > 0.0 && f.log(Mul(a, b)) == f.log(a) + f.log(b)
  {
    assert a * b > 0.0;
    ExpOfSum(f, f.log(a), f.log(b));
  }

  lemma LogOfQuotient(f: Library, a: real, b: real)
    requires Exponential(f) && a > 0.0 && b > 0.0
    ensures Div(a, b) > 0.0 && f.log(Div(a, b)) == f.log(a) - f.log(b)
  {
    var q := Div(a, b);
    assert q > 0.0;
    assert Mul(q, b) == a;
    LogOfProduct(f, q, b);
  }

  // ---------- the logistic function ----------

  /** Both branches compute 1 / (1 + exp(-x)), strictly between zero and one. */
  lemma SigmoidIsLogistic(f: Library, x: real)
    requires Exponential(f)
    ensures f.exp(x) > 0.0 && f.exp(-x) > 0.0
    ensures ApplyScalar(f, Sigmoid, x) == Div(1.0, 1.0 + f.exp(-x))
    ensures 0.0 < ApplyScalar(f, Sigmoid, x) < 1.0
  {
    ExpOfOpposite(f, x);
    Reciprocal(f.exp(x), f.exp(-x));
  }

  lemma Reciprocal(e: real, r: real)
    requires e > 0.0 && r > 0.0 && Mul(e, r) == 1.0
    ensures Div(e, 1.0 + e) == Div(1.0, 1.0 + r)
    ensures 0.0 < Div(1.0, 1.0 + r) < 1.0
  {
    var q := Div(1.0, 1.0 + r);
    assert q * (1.0 + r) == 1.0;
    assert e * (1.0 + r) == 1.0 + e;
    assert q * (e * (1.0 + r)) == e;
    assert q * (1.0 + e) == e;
  }

  /** The rectifier is the larger of zero and its argument. */
  lemma ReluIsMaximum(f: Library, x: real)
    requires Lawful(f)
    ensures var y := ApplyScalar(f, Relu, x); y >= 0.0 && y >= x && (y == 0.0 || y == x)
  {
  }

  // ---------- softmax ----------

  lemma {:induction false} MaxIsGreatest(z: seq<real>, n: nat) returns (at: nat)
    requires 0 < n <= |z|
    ensures at < n && z[at] == MaxOf(z, n)
    ensures forall i :: 0 <= i < n ==> z[i] <= MaxOf(z, n)
  {
    if n == 1 {
      at := 0;
    } else {
      at := MaxIsGreatest(z, n - 1);
      if z[n - 1] > MaxOf(z, n - 1) {
        at := n - 1;
      }
    }
  }

  function PlainExps(f: Library, z: seq<real>): (e: seq<real>)
    ensures |e| == |z| && forall i :: 0 <= i < |z| ==> e[i] == f.exp(z[i])
  {
    seq(|z|, i requires 0 <= i < |z| => f.exp(z[i]))
  }

  lemma ShiftedExp(f: Library, z: seq<real>, i: nat)
    requires Exponential(f) && i < |z|
    ensures Mul(Exps(f, z)[i], f.exp(MaxOf(z, |z|))) == f.exp(z[i])
  {
    var m := MaxOf(z, |z|);
    ExpOfSum(f, z[i] - m, m);
    hide Mul, MaxOf, Exponential;
    assert z[i] - m + m == z[i];
  }

  lemma {:induction false} ShiftedSum(f: Library, z: seq<real>, n: nat)
    requires Exponential(f) && 0 < |z| && n <= |z|
    ensures Mul(SumOf(Exps(f, z), n), f.exp(MaxOf(z, |z|))) == SumOf(PlainExps(f, z), n)
  {
    hide Mul, Exps, MaxOf, Exponential;
    var scale := f.exp(MaxOf(z, |z|));
    if n == 0 {
      MulDistributes(scale, 0.0, 0.0);
    } else {
      ShiftedSum(f, z, n - 1);
      ShiftedExp(f, z, n - 1);
      MulDistributes(scale, SumOf(Exps(f, z), n - 1), Exps(f, z)[n - 1]);
    }
  }

  /** The shift by the maximum cancels: an entry is its exponential over the sum of
      all. No exponent is positive, and one is zero. */
  lemma SoftmaxIsNormalized(f: Library, z: seq<real>, i: nat) returns (at: nat)
    requires Exponential(f) && i < |z|
    ensures SumOf(Exps(f, z), |z|) != 0.0 && SumOf(PlainExps(f, z), |z|) > 0.0
    ensures Probabilities(f, z)[i] == Div(f.exp(z[i]), SumOf(PlainExps(f, z), |z|)) > 0.0
    ensures at < |z| && z[at] - MaxOf(z, |z|) == 0.0
    ensures forall j :: 0 <= j < |z| ==> z[j] - MaxOf(z, |z|) <= 0.0
  {
    var n := |z|;
    ExponentialIsLawful(f);
    SumPositive(f, z, n);
    at := MaxIsGreatest(z, n);
    ShiftedSum(f, z, n);
    ShiftedExp(f, z, i);
    ScaledQuotient(Exps(f, z)[i], SumOf(Exps(f, z), n), f.exp(MaxOf(z, n)));
    hide Mul, Div, MaxOf, SumOf, Exponential;
  }

  lemma ScaledQuotient(a: real, b: real, scale: real)
    requires a > 0.0 && b > 0.0 && scale > 0.0
    ensures Mul(b, scale) > 0.0 && Div(a, b) == Div(Mul(a, scale), Mul(b, scale)) > 0.0
  {
    var q := Div(a, b);
    assert q * b == a && q > 0.0;
    assert b * scale > 0.0;
    assert q * (b * scale) == a * scale;
  }

  // ---------- the cross-entropies ----------

  /** The term from the logit is the binary cross-entropy of the probability. */
  lemma BinaryTermIsCrossEntropy(f: Library, z: real, t: real)
    requires Exponential(f)
    ensures Lawful(f)
    ensures var p := ApplyScalar(f, Sigmoid, z);
            BinaryTerm(f, z, t) == -(Mul(t, f.log(p)) + Mul(1.0 - t, f.log(1.0 - p)))
  {
    ExponentialIsLawful(f);
    SigmoidIsLogistic(f, z);
    var r := f.exp(-z);
    var l := f.log(1.0 + r);
    LogSigmoid(f, z);
    BothBranches(f, z, t);
    Combined(t, z, l);
  }

  lemma LogSigmoid(f: Library, z: real)
    requires Exponential(f)
    ensures f.exp(z) > 0.0 && f.exp(-z) > 0.0
    ensures var p, l := ApplyScalar(f, Sigmoid, z), f.log(1.0 + f.exp(-z));
            f.log(p) == -l && f.log(1.0 - p) == -z - l
  {
    SigmoidIsLogistic(f, z);
    ExpOfZero(f);
    var r := f.exp(-z);
    LogOfQuotient(f, 1.0, 1.0 + r);
    LogOfQuotient(f, r, 1.0 + r);
    assert f.log(1.0) == f.log(f.exp(0.0));
    Complement(r);
  }

  lemma Complement(r: real)
    requires r > 0.0
    ensures 1.0 - Div(1.0, 1.0 + r) == Div(r, 1.0 + r)
  {
    var q := Div(1.0, 1.0 + r);
    DivIsMul(r, 1.0 + r);
    assert q * (1.0 + r) == 1.0;
  }

  lemma BothBranches(f: Library, z: real, t: real)
    requires Exponential(f) && Lawful(f)
    ensures BinaryTerm(f, z, t) == z - Mul(z, t) + f.log(1.0 + f.exp(-z))
  {
    if z < 0.0 {
      ExpOfOpposite(f, z);
      var e, r := f.exp(z), f.exp(-z);
      LogOfProduct(f, e, 1.0 + r);
      assert Mul(e, 1.0 + r) == 1.0 + e;
      assert -(-z) == z;
    }
  }

  lemma Combined(t: real, z: real, l: real)
    ensures -(Mul(t, -l) + Mul(1.0 - t, -z - l)) == z - Mul(z, t) + l
  {
  }

  /** The value from the logits is minus the logarithm of the probability of the
      selected class. */
  lemma CategoricalIsCrossEntropy(f: Library, z: seq<real>, t: seq<real>, k: nat)
    requires Exponential(f) && 0 < |z| == |t| && OneHot(t, k)
    ensures Lawful(f) && CategoricalValue(f, z, t) == -f.log(Apply(f, Softmax, z)[k])
  {
    ExponentialIsLawful(f);
    SumPositive(f, z, |z|);
    SelectedIsHot(t, k, |t|);
    LogOfQuotient(f, Exps(f, z)[k], SumOf(Exps(f, z), |z|));
    assert f.log(f.exp(z[k] - MaxOf(z, |z|))) == z[k] - MaxOf(z, |z|);
    hide MaxOf, SumOf, Selected, Div, OneHot;
  }
}
