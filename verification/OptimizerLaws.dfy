/** What the optimizer steps compute, over exact real arithmetic: descent along the
    gradient, momentum as a discounted sum of the gradient history, and Adam as the
    ratio of bias-corrected averages. */
module OptimizerLaws {
  import opened Options
  import opened Words
  import opened Layers
  import opened Schedule
  import opened OptimizerStep
  import Backprop
  import Calculus
  import Dense
  import Losses

  /** The operations are those of the real numbers; nothing is out of range. */
  ghost predicate Real(fl: Floats<real>) {
    && fl.zero == 0.0 && fl.one == 1.0
    && (forall a, b :: fl.add(a, b) == a + b)
    && (forall a, b :: fl.sub(a, b) == a - b)
    && (forall a, b :: fl.mul(a, b) == a * b)
    && (forall a, b :: b != 0.0 ==> fl.div(a, b) * b == a)
    && (forall a :: a >= 0.0 ==> fl.sqrt(a) >= 0.0 && fl.sqrt(a) * fl.sqrt(a) == a)
    && (forall a :: fl.positive(a) <==> a > 0.0)
    && (forall a :: fl.finite(a))
  }

  // ---------- single parameters ----------

  /** One weight or one bias of a model. */
  datatype Place = Weight(layer: nat, index: nat) | Bias(layer: nat, index: nat)

  predicate In<F>(layers: seq<Layer<F>>, p: Place) {
    && p.layer < |layers|
    && p.index < (if p.Weight? then |layers[p.layer].weights| else |layers[p.layer].biases|)
  }

  function At<F>(layers: seq<Layer<F>>, p: Place): F
    requires In(layers, p)
  {
    if p.Weight? then layers[p.layer].weights[p.index] else layers[p.layer].biases[p.index]
  }

  lemma ZippedAt<F>(f: (F, F) -> F, a: seq<Layer<F>>, b: seq<Layer<F>>, p: Place)
    requires SameShape(a, b) && In(a, p)
    ensures In(b, p) && In(ZipLayers(f, a, b), p)
    ensures At(ZipLayers(f, a, b), p) == f(At(a, p), At(b, p))
  {
  }

  // ---------- descent ----------

  function Changes(layers: seq<Layer<real>>): (changes: seq<Dense.Change>)
    ensures |changes| == |layers|
  {
    seq(|layers|, i requires 0 <= i < |layers| => Dense.Change(layers[i].weights, layers[i].biases))
  }

  /** What a step adds to the parameters. */
  ghost function Moved(before: seq<Layer<real>>, after: seq<Layer<real>>): (change: seq<Layer<real>>)
    requires SameShape(before, after)
    ensures SameShape(before, change)
  {
    ZipLayers((a, b) => b - a, before, after)
  }

  ghost predicate Multiple(change: seq<real>, factor: real, direction: seq<real>) {
    |change| == |direction| && forall i :: 0 <= i < |change| ==> change[i] == Calculus.Mul(factor, direction[i])
  }

  ghost predicate Multiples(change: seq<Dense.Change>, factor: real, direction: seq<Dense.Change>) {
    && |change| == |direction|
    && forall i :: 0 <= i < |change| ==>
         Multiple(change[i].weights, factor, direction[i].weights)
         && Multiple(change[i].biases, factor, direction[i].biases)
  }

  lemma InnerMultiple(change: seq<real>, factor: real, direction: seq<real>)
    requires Multiple(change, factor, direction)
    ensures Calculus.Inner(change, direction) == Calculus.Mul(factor, Calculus.Inner(direction, direction))
  {
    Calculus.DotScaled(direction, direction, factor, change, |direction|);
  }

  lemma {:induction false} PairedMultiple(change: seq<Dense.Change>, factor: real, direction: seq<Dense.Change>)
    requires Multiples(change, factor, direction)
    ensures Backprop.SameSizes(change, direction) && Backprop.SameSizes(direction, direction)
    ensures Backprop.Paired(change, direction) == Calculus.Mul(factor, Backprop.Paired(direction, direction))
  {
    if change == [] {
      assert Calculus.Mul(factor, 0.0) == 0.0;
    } else {
      PairedMultiple(change[1..], factor, direction[1..]);
      InnerMultiple(change[0].weights, factor, direction[0].weights);
      InnerMultiple(change[0].biases, factor, direction[0].biases);
      var w := Calculus.Inner(direction[0].weights, direction[0].weights);
      var b := Calculus.Inner(direction[0].biases, direction[0].biases);
      Calculus.MulDistributes(factor, w, b);
      Calculus.MulDistributes(factor, w + b, Backprop.Paired(direction[1..], direction[1..]));
      hide Calculus.Mul, Calculus.Inner, Multiple;
    }
  }

  lemma DescentIsMultiple(fl: Floats<real>, parameters: seq<Layer<real>>, direction: seq<Layer<real>>, rate: real)
    requires Real(fl) && SameShape(parameters, direction) && Descended(fl, parameters, direction, rate).Some?
    ensures rate > 0.0
    ensures var next := Descended(fl, parameters, direction, rate).value;
            Multiples(Changes(Moved(parameters, next)), -rate, Changes(direction))
  {
    var next := Descended(fl, parameters, direction, rate).value;
    var moved := Changes(Moved(parameters, next));
    forall i | 0 <= i < |moved|
      ensures Multiple(moved[i].weights, -rate, direction[i].weights)
      ensures Multiple(moved[i].biases, -rate, direction[i].biases)
    {
      assert next[i] == ZipLayer(Descend(fl, rate), parameters[i], direction[i]);
    }
  }

  ghost predicate Downhill(parameters: seq<Layer<real>>, next: seq<Layer<real>>, g: seq<Layer<real>>, rate: real) {
    && rate > 0.0 && SameShape(parameters, next)
    && Backprop.SameSizes(Changes(Moved(parameters, next)), Changes(g))
    && Backprop.SameSizes(Changes(g), Changes(g))
    && Backprop.Paired(Changes(Moved(parameters, next)), Changes(g))
       == -rate * Backprop.Paired(Changes(g), Changes(g))
  }

  /** A step of gradient descent goes downhill: its inner product with the gradient
      is minus the rate times the squared gradient. */
  lemma DescentGoesDownhill(fl: Floats<real>, k: Coefficients<real>, parameters: seq<Layer<real>>, s: Moments<real>,
                            g: seq<Layer<real>>, rate: real)
    requires Real(fl) && SameShape(parameters, s.first) && SameShape(parameters, s.second) && SameShape(parameters, g)
    requires Stepped(fl, GradientDescent, k, parameters, s, g, rate).Some?
    ensures Downhill(parameters, Stepped(fl, GradientDescent, k, parameters, s, g, rate).value.0, g, rate)
  {
    hide Stepped, Real, Descended, Moved, Multiples, Changes;
    hide Backprop.Paired, Backprop.SameSizes;
    GradientStepIs(fl, k, parameters, s, g, rate);
    DescentIsMultiple(fl, parameters, g, rate);
    MultipleStep(Changes(Moved(parameters, Descended(fl, parameters, g, rate).value)), rate, Changes(g));
  }

  lemma GradientStepIs(fl: Floats<real>, k: Coefficients<real>, parameters: seq<Layer<real>>, s: Moments<real>,
                       g: seq<Layer<real>>, rate: real)
    requires SameShape(parameters, s.first) && SameShape(parameters, s.second) && SameShape(parameters, g)
    requires Stepped(fl, GradientDescent, k, parameters, s, g, rate).Some?
    ensures Descended(fl, parameters, g, rate)
         == Some(Stepped(fl, GradientDescent, k, parameters, s, g, rate).value.0)
  {
    hide Descended;
  }

  lemma MultipleStep(change: seq<Dense.Change>, rate: real, direction: seq<Dense.Change>)
    requires Multiples(change, -rate, direction)
    ensures Backprop.SameSizes(change, direction) && Backprop.SameSizes(direction, direction)
    ensures Backprop.Paired(change, direction) == -rate * Backprop.Paired(direction, direction)
  {
    PairedMultiple(change, -rate, direction);
    Product(-rate, Backprop.Paired(direction, direction));
    hide Calculus.Mul, Multiples, Backprop.Paired;
  }

  lemma Product(a: real, b: real)
    ensures Calculus.Mul(a, b) == a * b
  {
  }

  /** The derivative of a sample's loss along the change from one set of parameters
      to the next is minus the rate times the squared gradient. */
  ghost predicate LossFalls(f: Calculus.Library, network: seq<Backprop.Layer>, x: seq<real>, loss: Losses.Loss,
                            t: seq<real>, parameters: seq<Layer<real>>, next: seq<Layer<real>>, g: seq<Layer<real>>,
                            rate: real)
    requires Calculus.Lawful(f) && Backprop.Chained(network, |x|) && Backprop.Accepted(network, loss, t)
  {
    && SameShape(parameters, next) && Backprop.Fitting(network, Changes(Moved(parameters, next)))
    && Backprop.SameSizes(Changes(g), Changes(g))
    && var still := Calculus.Vec(x, seq(|x|, i => 0.0));
       Backprop.DualLossOf(f, network, Changes(Moved(parameters, next)), still, loss, t).d
       == -rate * Backprop.Paired(Changes(g), Changes(g))
  }

  /** With the gradient of a sample, the step of gradient descent lowers its loss. */
  lemma DescentLowersTheLoss(fl: Floats<real>, k: Coefficients<real>, f: Calculus.Library,
                             network: seq<Backprop.Layer>, x: seq<real>, loss: Losses.Loss, t: seq<real>,
                             parameters: seq<Layer<real>>, s: Moments<real>, g: seq<Layer<real>>, rate: real)
    requires Calculus.Lawful(f) && Backprop.Chained(network, |x|) && Backprop.Accepted(network, loss, t)
    requires Backprop.Fitting(network, Changes(parameters)) && SameShape(parameters, g)
    requires Changes(g) == Backprop.Reverse(f, network, x, loss, t).layers
    requires Real(fl) && SameShape(parameters, s.first) && SameShape(parameters, s.second)
    requires Stepped(fl, GradientDescent, k, parameters, s, g, rate).Some?
    ensures rate > 0.0
    ensures LossFalls(f, network, x, loss, t, parameters,
                      Stepped(fl, GradientDescent, k, parameters, s, g, rate).value.0, g, rate)
  {
    hide *;
    DescentGoesDownhill(fl, k, parameters, s, g, rate);
    DownhillFalls(f, network, x, loss, t, parameters, Stepped(fl, GradientDescent, k, parameters, s, g, rate).value.0,
                  g, rate);
  }

  lemma DownhillFalls(f: Calculus.Library, network: seq<Backprop.Layer>, x: seq<real>, loss: Losses.Loss,
                      t: seq<real>, parameters: seq<Layer<real>>, next: seq<Layer<real>>, g: seq<Layer<real>>,
                      rate: real)
    requires Calculus.Lawful(f) && Backprop.Chained(network, |x|) && Backprop.Accepted(network, loss, t)
    requires Backprop.Fitting(network, Changes(parameters)) && Downhill(parameters, next, g, rate)
    requires Changes(g) == Backprop.Reverse(f, network, x, loss, t).layers
    ensures rate > 0.0 && LossFalls(f, network, x, loss, t, parameters, next, g, rate)
  {
    hide Moved, Changes, SameShape, Calculus.Lawful, Backprop.Chained;
    hide Backprop.DualLossOf, Backprop.Reverse, Backprop.Paired, Backprop.LossOf, Backprop.Fitting, Backprop.Accepted;
    StepFits(network, parameters, next);
    Backprop.GradientIsDirectionalDerivative(f, network, Changes(Moved(parameters, next)), x, loss, t);
  }

  lemma StepFits(network: seq<Backprop.Layer>, parameters: seq<Layer<real>>, next: seq<Layer<real>>)
    requires SameShape(parameters, next) && Backprop.Fitting(network, Changes(parameters))
    ensures Backprop.Fitting(network, Changes(Moved(parameters, next)))
  {
    var moved := Moved(parameters, next);
    forall i | 0 <= i < |network|
      ensures Changes(moved)[i].Fits(network[i].dense)
    {
      assert Changes(parameters)[i].Fits(network[i].dense);
    }
  }

  // ---------- one step in one place ----------

  lemma DescendedAt(fl: Floats<real>, parameters: seq<Layer<real>>, direction: seq<Layer<real>>, rate: real, p: Place)
    requires Real(fl) && SameShape(parameters, direction) && In(parameters, p)
    requires Descended(fl, parameters, direction, rate).Some?
    ensures var next := Descended(fl, parameters, direction, rate).value;
            In(next, p) && In(direction, p) && At(next, p) == At(parameters, p) - rate * At(direction, p)
  {
    ZippedAt(Descend(fl, rate), parameters, direction, p);
  }

  /** Momentum in one place: the state is discounted and takes the gradient, and the
      parameter moves against the new state. */
  lemma MomentumAt(fl: Floats<real>, k: Coefficients<real>, parameters: seq<Layer<real>>, s: Moments<real>,
                   g: seq<Layer<real>>, rate: real, p: Place)
    requires Real(fl) && SameShape(parameters, s.first) && SameShape(parameters, s.second) && SameShape(parameters, g)
    requires In(parameters, p) && Stepped(fl, Momentum, k, parameters, s, g, rate).Some?
    ensures var (next, m) := Stepped(fl, Momentum, k, parameters, s, g, rate).value;
            && In(s.first, p) && In(g, p) && In(m.first, p) && In(next, p)
            && SameShape(parameters, next) && SameShape(parameters, m.first) && SameShape(parameters, m.second)
            && At(m.first, p) == k.momentum * At(s.first, p) + At(g, p)
            && At(next, p) == At(parameters, p) - rate * At(m.first, p)
  {
    ShapeIn(parameters, s.first, p);
    ZippedAt(Momentum1(fl, k.momentum), s.first, g, p);
    DescendedAt(fl, parameters, ZipLayers(Momentum1(fl, k.momentum), s.first, g), rate, p);
    hide ZipLayers, LayersFinite, Descended;
  }

  lemma ShapeIn<F>(a: seq<Layer<F>>, b: seq<Layer<F>>, p: Place)
    requires SameShape(a, b) && In(a, p)
    ensures In(b, p)
  {
  }

  /** Adam in one place, with the averages of gradient and squared gradient, the
      powers of the decay rates, and the update as a quotient. */
  lemma AdamAt(fl: Floats<real>, k: Coefficients<real>, parameters: seq<Layer<real>>, s: Moments<real>,
               g: seq<Layer<real>>, rate: real, p: Place) returns (update: real, root: real)
    requires Real(fl) && SameShape(parameters, s.first) && SameShape(parameters, s.second) && SameShape(parameters, g)
    requires In(parameters, p) && Stepped(fl, Adam, k, parameters, s, g, rate).Some?
    ensures var (next, m) := Stepped(fl, Adam, k, parameters, s, g, rate).value;
            && SameShape(parameters, next) && SameShape(parameters, m.first) && SameShape(parameters, m.second)
            && AdamMoves(k, parameters, s, g, rate, p, next, m, update, root)
  {
    hide Stepped, Real, ZipLayers, AdamLayers, Descended, Quotient, SameShape, At, In;
    var (next, m) := Stepped(fl, Adam, k, parameters, s, g, rate).value;
    AdamPowers(fl, k, parameters, s, g, rate);
    AdamMoments(fl, k, parameters, s, g, rate, p);
    update, root := AdamChange(fl, k, parameters, m, rate, p);
  }

  ghost predicate AdamMoves(k: Coefficients<real>, parameters: seq<Layer<real>>, s: Moments<real>,
                            g: seq<Layer<real>>, rate: real, p: Place, next: seq<Layer<real>>, m: Moments<real>,
                            update: real, root: real)
  {
    && In(s.first, p) && In(s.second, p) && In(g, p) && In(m.first, p) && In(m.second, p)
    && In(parameters, p) && In(next, p)
    && m.timestep == s.timestep + 1
    && m.power1 == s.power1 * k.beta1 && m.power2 == s.power2 * k.beta2
    && At(m.first, p) == k.beta1 * At(s.first, p) + (1.0 - k.beta1) * At(g, p)
    && At(m.second, p) == k.beta2 * At(s.second, p) + (1.0 - k.beta2) * (At(g, p) * At(g, p))
    && m.power1 < 1.0 && m.power2 < 1.0
    && At(next, p) == At(parameters, p) - rate * update
    && (At(m.second, p) >= 0.0 ==>
          Quotient(update, root, k.epsilon, At(m.first, p), 1.0 - m.power1, At(m.second, p), 1.0 - m.power2))
  }

  lemma AdamChange(fl: Floats<real>, k: Coefficients<real>, parameters: seq<Layer<real>>, m: Moments<real>, rate: real,
                   p: Place) returns (update: real, root: real)
    requires Real(fl) && In(parameters, p) && m.power1 < 1.0 && m.power2 < 1.0
    requires SameShape(parameters, m.first) && SameShape(parameters, m.second) && SameShape(m.first, m.second)
    requires In(m.first, p) && In(m.second, p)
    requires fl.positive(AdamDenominator(fl, fl.sub(fl.one, m.power2), k.epsilon)(At(m.second, p)))
    requires SameShape(parameters,
                       ZipLayers(AdamUpdate(fl, 1.0 - m.power1, 1.0 - m.power2, k.epsilon), m.first, m.second))
    requires var updates := ZipLayers(AdamUpdate(fl, 1.0 - m.power1, 1.0 - m.power2, k.epsilon), m.first, m.second);
             Descended(fl, parameters, updates, rate).Some?
    ensures var updates := ZipLayers(AdamUpdate(fl, 1.0 - m.power1, 1.0 - m.power2, k.epsilon), m.first, m.second);
            var next := Descended(fl, parameters, updates, rate).value;
            In(next, p) && At(next, p) == At(parameters, p) - rate * update
    ensures At(m.second, p) >= 0.0 ==>
              Quotient(update, root, k.epsilon, At(m.first, p), 1.0 - m.power1, At(m.second, p), 1.0 - m.power2)
  {
    hide Real, ZipLayers, Descended, Quotient, SameShape;
    var c1, c2 := 1.0 - m.power1, 1.0 - m.power2;
    var updates := ZipLayers(AdamUpdate(fl, c1, c2, k.epsilon), m.first, m.second);
    ZippedAt(AdamUpdate(fl, c1, c2, k.epsilon), m.first, m.second, p);
    DescendedAt(fl, parameters, updates, rate, p);
    hide In, At, AdamUpdate;
    update, root := AdamUpdate(fl, c1, c2, k.epsilon)(At(m.first, p), At(m.second, p)), 0.0;
    if At(m.second, p) >= 0.0 {
      root := QuotientHolds(fl, k.epsilon, At(m.first, p), c1, At(m.second, p), c2);
    }
  }

  lemma AdamPowers(fl: Floats<real>, k: Coefficients<real>, parameters: seq<Layer<real>>, s: Moments<real>,
                   g: seq<Layer<real>>, rate: real)
    requires Real(fl) && SameShape(parameters, s.first) && SameShape(parameters, s.second) && SameShape(parameters, g)
    requires Stepped(fl, Adam, k, parameters, s, g, rate).Some?
    ensures var (next, m) := Stepped(fl, Adam, k, parameters, s, g, rate).value;
            && SameShape(parameters, next) && SameShape(parameters, m.first) && SameShape(parameters, m.second)
            && SameShape(m.first, m.second) && m.timestep == s.timestep + 1
            && m.power1 == s.power1 * k.beta1 && m.power2 == s.power2 * k.beta2
            && m.power1 < 1.0 && m.power2 < 1.0
            && var update := ZipLayers(AdamUpdate(fl, 1.0 - m.power1, 1.0 - m.power2, k.epsilon), m.first, m.second);
               SameShape(parameters, update) && Descended(fl, parameters, update, rate) == Some(next)
  {
    hide ZipLayers, AdamLayers, Descended;
  }

  ghost predicate Averaged(fl: Floats<real>, k: Coefficients<real>, s: Moments<real>, m: Moments<real>,
                           g: seq<Layer<real>>, p: Place)
  {
    && In(s.first, p) && In(s.second, p) && In(g, p) && In(m.first, p) && In(m.second, p)
    && At(m.first, p) == k.beta1 * At(s.first, p) + (1.0 - k.beta1) * At(g, p)
    && At(m.second, p) == k.beta2 * At(s.second, p) + (1.0 - k.beta2) * (At(g, p) * At(g, p))
    && fl.positive(AdamDenominator(fl, fl.sub(fl.one, m.power2), k.epsilon)(At(m.second, p)))
  }

  lemma AdamMoments(fl: Floats<real>, k: Coefficients<real>, parameters: seq<Layer<real>>, s: Moments<real>,
                    g: seq<Layer<real>>, rate: real, p: Place)
    requires Real(fl) && SameShape(parameters, s.first) && SameShape(parameters, s.second) && SameShape(parameters, g)
    requires In(parameters, p) && Stepped(fl, Adam, k, parameters, s, g, rate).Some?
    ensures Averaged(fl, k, s, Stepped(fl, Adam, k, parameters, s, g, rate).value.1, g, p)
  {
    hide Stepped, ZipLayers, AdamLayers, AdamDenominator, SameShape, Real;
    var m := Stepped(fl, Adam, k, parameters, s, g, rate).value.1;
    ShapeIn(parameters, s.first, p);
    ShapeIn(parameters, s.second, p);
    ShapesMeet(parameters, s.first, g);
    ShapesMeet(parameters, s.second, g);
    AdamChecked(fl, k, parameters, s, g, rate);
    AveragesAt(fl, k, s.first, s.second, g, p);
    AdamDenominatorAt(fl, k, fl.sub(fl.one, m.power1), fl.sub(fl.one, m.power2), s.first, s.second, g, p);
    hide At, In;
  }

  lemma AveragesAt(fl: Floats<real>, k: Coefficients<real>, m: seq<Layer<real>>, v: seq<Layer<real>>,
                   g: seq<Layer<real>>, p: Place)
    requires Real(fl) && SameShape(m, g) && SameShape(v, g) && In(m, p) && In(v, p)
    ensures In(g, p)
    ensures var first, second := ZipLayers(AdamFirst(fl, k.beta1), m, g), ZipLayers(AdamSecond(fl, k.beta2), v, g);
            && In(first, p) && In(second, p)
            && At(first, p) == k.beta1 * At(m, p) + (1.0 - k.beta1) * At(g, p)
            && At(second, p) == k.beta2 * At(v, p) + (1.0 - k.beta2) * (At(g, p) * At(g, p))
            && At(second, p) == AdamSecond(fl, k.beta2)(At(v, p), At(g, p))
  {
    hide ZipLayers, SameShape, Real, AdamFirst, AdamSecond;
    ZippedAt(AdamFirst(fl, k.beta1), m, g, p);
    ZippedAt(AdamSecond(fl, k.beta2), v, g, p);
    hide At, In;
    AverageIs(fl, k.beta1, At(m, p), At(g, p));
    AverageIs(fl, k.beta2, At(v, p), At(g, p));
  }

  lemma ShapesMeet<F>(a: seq<Layer<F>>, b: seq<Layer<F>>, c: seq<Layer<F>>)
    requires SameShape(a, b) && SameShape(a, c)
    ensures SameShape(b, c)
  {
  }

  lemma AverageIs(fl: Floats<real>, beta: real, a: real, g: real)
    requires Real(fl)
    ensures AdamFirst(fl, beta)(a, g) == beta * a + (1.0 - beta) * g
    ensures AdamSecond(fl, beta)(a, g) == beta * a + (1.0 - beta) * (g * g)
  {
  }

  lemma AdamChecked(fl: Floats<real>, k: Coefficients<real>, parameters: seq<Layer<real>>, s: Moments<real>,
                    g: seq<Layer<real>>, rate: real)
    requires SameShape(parameters, s.first) && SameShape(parameters, s.second) && SameShape(parameters, g)
    requires Stepped(fl, Adam, k, parameters, s, g, rate).Some?
    ensures var m := Stepped(fl, Adam, k, parameters, s, g, rate).value.1;
            && m.first == ZipLayers(AdamFirst(fl, k.beta1), s.first, g)
            && m.second == ZipLayers(AdamSecond(fl, k.beta2), s.second, g)
            && AdamLayers(fl, k, fl.sub(fl.one, m.power1), fl.sub(fl.one, m.power2), s.first, s.second, g)
  {
    hide ZipLayers, AdamLayers, Descended;
  }

  lemma AdamDenominatorAt(fl: Floats<real>, k: Coefficients<real>, c1: real, c2: real, m: seq<Layer<real>>,
                          v: seq<Layer<real>>, g: seq<Layer<real>>, p: Place)
    requires SameShape(m, v) && SameShape(m, g) && AdamLayers(fl, k, c1, c2, m, v, g) && In(m, p)
    ensures In(v, p) && In(g, p)
    ensures fl.positive(AdamDenominator(fl, c2, k.epsilon)(AdamSecond(fl, k.beta2)(At(v, p), At(g, p))))
  {
    assert AdamLayer(fl, k, c1, c2, m[p.layer], v[p.layer], g[p.layer]);
  }

  /** update == (m / c1) / (root + epsilon), where root is the square root of v / c2 */
  ghost predicate Quotient(update: real, root: real, epsilon: real, m: real, c1: real, v: real, c2: real) {
    && (update * (root + epsilon)) * c1 == m
    && root >= 0.0 && (root * root) * c2 == v && root + epsilon > 0.0
  }

  lemma QuotientHolds(fl: Floats<real>, epsilon: real, m: real, c1: real, v: real, c2: real) returns (root: real)
    requires Real(fl) && c1 > 0.0 && c2 > 0.0 && v >= 0.0
    requires fl.positive(AdamDenominator(fl, fl.sub(fl.one, 1.0 - c2), epsilon)(v))
    ensures Quotient(AdamUpdate(fl, c1, c2, epsilon)(m, v), root, epsilon, m, c1, v, c2)
  {
    var mean, square := fl.div(m, c1), fl.div(v, c2);
    RealQuotient(fl, m, c1);
    RealQuotient(fl, v, c2);
    NonNegativeFactor(square, c2, v);
    root := fl.sqrt(square);
    RealRoot(fl, square);
    DenominatorIs(fl, c2, epsilon, v);
    RealQuotient(fl, mean, root + epsilon);
    UpdateIs(fl, c1, c2, epsilon, m, v);
    hide Real, AdamUpdate, AdamDenominator;
  }

  lemma RealQuotient(fl: Floats<real>, a: real, b: real)
    requires Real(fl) && b != 0.0
    ensures fl.div(a, b) * b == a
  {
  }

  lemma RealRoot(fl: Floats<real>, a: real)
    requires Real(fl) && a >= 0.0
    ensures fl.sqrt(a) >= 0.0 && fl.sqrt(a) * fl.sqrt(a) == a
  {
  }

  lemma DenominatorIs(fl: Floats<real>, c2: real, epsilon: real, v: real)
    requires Real(fl) && fl.positive(AdamDenominator(fl, fl.sub(fl.one, 1.0 - c2), epsilon)(v))
    ensures fl.sqrt(fl.div(v, c2)) + epsilon > 0.0
  {
    assert fl.sub(fl.one, 1.0 - c2) == c2;
    assert AdamDenominator(fl, c2, epsilon)(v) == fl.add(fl.sqrt(fl.div(v, c2)), epsilon);
  }

  lemma UpdateIs(fl: Floats<real>, c1: real, c2: real, epsilon: real, m: real, v: real)
    requires Real(fl)
    ensures AdamUpdate(fl, c1, c2, epsilon)(m, v) == fl.div(fl.div(m, c1), fl.sqrt(fl.div(v, c2)) + epsilon)
  {
    assert AdamDenominator(fl, c2, epsilon)(v) == fl.add(fl.sqrt(fl.div(v, c2)), epsilon);
  }

  lemma NonNegativeFactor(a: real, b: real, product: real)
    requires a * b == product && product >= 0.0 && b > 0.0
    ensures a >= 0.0
  {
  }

  // ---------- closed forms over a history ----------

  /** Steps with a history of gradients and rates. */
  ghost function Steps(fl: Floats<real>, kind: Kind, k: Coefficients<real>, parameters: seq<Layer<real>>,
                       s: Moments<real>, history: seq<(seq<Layer<real>>, real)>)
    : Option<(seq<Layer<real>>, Moments<real>)>
  {
    if history == [] then
      Some((parameters, s))
    else
      match Steps(fl, kind, k, parameters, s, history[..|history| - 1])
      case None => None
      case Some((p, m)) =>
        var (g, rate) := history[|history| - 1];
        if SameShape(p, m.first) && SameShape(p, m.second) && SameShape(p, g)
        then Stepped(fl, kind, k, p, m, g, rate) else None
  }

  /** The gradients of one place. */
  ghost predicate Traces(history: seq<(seq<Layer<real>>, real)>, p: Place, xs: seq<real>) {
    |xs| == |history| && forall i :: 0 <= i < |xs| ==> In(history[i].0, p) && xs[i] == At(history[i].0, p)
  }

  /** The sum over i < j of factor^(n - 1 - i) * xs[i], where n is the length of xs. */
  ghost function Weighted(factor: real, xs: seq<real>, j: nat): real
    requires j <= |xs|
  {
    if j == 0 then 0.0 else Weighted(factor, xs, j - 1) + RPow(factor, |xs| - j) * xs[j - 1]
  }

  ghost function Squares(xs: seq<real>): (ys: seq<real>)
    ensures |ys| == |xs| && forall i :: 0 <= i < |ys| ==> ys[i] == xs[i] * xs[i]
  {
    seq(|xs|, i requires 0 <= i < |xs| => xs[i] * xs[i])
  }

  /** One more term discounts all the others once more. */
  lemma {:induction false} WeightedGrows(factor: real, xs: seq<real>, x: real, j: nat)
    requires j <= |xs|
    ensures Weighted(factor, xs + [x], j) == factor * Weighted(factor, xs, j)
  {
    if j > 0 {
      WeightedGrows(factor, xs, x, j - 1);
      RPowStep(factor, |xs| - j);
      var power, rest := RPow(factor, |xs| - j), Weighted(factor, xs, j - 1);
      assert (power * factor) * xs[j - 1] == factor * (power * xs[j - 1]);
      assert factor * (rest + power * xs[j - 1]) == factor * rest + factor * (power * xs[j - 1]);
    }
  }

  lemma WeightedNext(factor: real, xs: seq<real>, x: real)
    ensures Weighted(factor, xs + [x], |xs| + 1) == factor * Weighted(factor, xs, |xs|) + x
  {
    WeightedGrows(factor, xs, x, |xs|);
    assert RPow(factor, 0) == 1.0;
  }

  /** A constant history adds up to a geometric sum. */
  lemma {:induction false} WeightedConstant(factor: real, xs: seq<real>, x: real)
    requires forall i :: 0 <= i < |xs| ==> xs[i] == x
    ensures (1.0 - factor) * Weighted(factor, xs, |xs|) == (1.0 - RPow(factor, |xs|)) * x
  {
    if xs != [] {
      var n := |xs| - 1;
      assert xs == xs[..n] + [x];
      WeightedConstant(factor, xs[..n], x);
      WeightedNext(factor, xs[..n], x);
      RPowStep(factor, n);
      Geometric(factor, Weighted(factor, xs[..n], n), RPow(factor, n), x);
    }
  }

  lemma Geometric(f: real, sum: real, power: real, x: real)
    requires (1.0 - f) * sum == (1.0 - power) * x
    ensures (1.0 - f) * (f * sum + x) == (1.0 - power * f) * x
  {
    assert (1.0 - f) * (f * sum + x) == f * ((1.0 - f) * sum) + (1.0 - f) * x;
  }

  /** Momentum from zero is the discounted sum of the gradients. */
  lemma {:induction false} MomentumIsDiscountedSum(
    fl: Floats<real>, k: Coefficients<real>, parameters: seq<Layer<real>>, s: Moments<real>,
    history: seq<(seq<Layer<real>>, real)>, p: Place, xs: seq<real>)
    requires Real(fl) && In(parameters, p) && Traces(history, p, xs)
    requires SameShape(parameters, s.first) && SameShape(parameters, s.second)
    requires In(s.first, p) && At(s.first, p) == 0.0
    requires Steps(fl, Momentum, k, parameters, s, history).Some?
    ensures var (q, m) := Steps(fl, Momentum, k, parameters, s, history).value;
            && SameShape(parameters, q) && SameShape(parameters, m.first) && SameShape(parameters, m.second)
            && In(m.first, p) && At(m.first, p) == Weighted(k.momentum, xs, |xs|)
  {
    hide Stepped, Real, At, In;
    if history != [] {
      var n := |history| - 1;
      MomentumIsDiscountedSum(fl, k, parameters, s, history[..n], p, xs[..n]);
      var (q, m) := Steps(fl, Momentum, k, parameters, s, history[..n]).value;
      ShapeIn(parameters, q, p);
      MomentumAt(fl, k, q, m, history[n].0, history[n].1, p);
      WeightedNext(k.momentum, xs[..n], xs[n]);
      assert xs == xs[..n] + [xs[n]];
      hide Weighted, Steps;
    }
  }

  /** What Adam holds in one place after a history from zero moments. */
  ghost predicate AdamHolds(k: Coefficients<real>, m: Moments<real>, p: Place, xs: seq<real>) {
    && In(m.first, p) && In(m.second, p) && m.timestep == |xs|
    && m.power1 == RPow(k.beta1, |xs|) && m.power2 == RPow(k.beta2, |xs|)
    && At(m.first, p) == (1.0 - k.beta1) * Weighted(k.beta1, xs, |xs|)
    && At(m.second, p) == (1.0 - k.beta2) * Weighted(k.beta2, Squares(xs), |xs|)
  }

  /** Adam's moments from zero are the averages of the gradients and of their
      squares, and its powers those of the number of steps. */
  lemma {:induction false} AdamIsAverages(
    fl: Floats<real>, k: Coefficients<real>, parameters: seq<Layer<real>>, s: Moments<real>,
    history: seq<(seq<Layer<real>>, real)>, p: Place, xs: seq<real>)
    requires Real(fl) && In(parameters, p) && Traces(history, p, xs)
    requires SameShape(parameters, s.first) && SameShape(parameters, s.second)
    requires AdamHolds(k, s, p, []) && Steps(fl, Adam, k, parameters, s, history).Some?
    ensures var (q, m) := Steps(fl, Adam, k, parameters, s, history).value;
            && SameShape(parameters, q) && SameShape(parameters, m.first) && SameShape(parameters, m.second)
            && AdamHolds(k, m, p, xs)
  {
    hide Stepped, Real, At, In, AdamHolds;
    if history == [] {
      assert xs == [];
    } else {
      var n := |history| - 1;
      AdamIsAverages(fl, k, parameters, s, history[..n], p, xs[..n]);
      var (q, m) := Steps(fl, Adam, k, parameters, s, history[..n]).value;
      ShapeIn(parameters, q, p);
      AdamStepHolds(fl, k, q, m, history[n].0, history[n].1, p, xs[..n], xs[n]);
      assert xs == xs[..n] + [xs[n]];
      hide Steps;
    }
  }

  lemma AdamStepHolds(fl: Floats<real>, k: Coefficients<real>, parameters: seq<Layer<real>>, s: Moments<real>,
                      g: seq<Layer<real>>, rate: real, p: Place, xs: seq<real>, x: real)
    requires Real(fl) && SameShape(parameters, s.first) && SameShape(parameters, s.second) && SameShape(parameters, g)
    requires In(parameters, p) && Stepped(fl, Adam, k, parameters, s, g, rate).Some?
    requires AdamHolds(k, s, p, xs) && In(g, p) && At(g, p) == x
    ensures var (next, m) := Stepped(fl, Adam, k, parameters, s, g, rate).value;
            && SameShape(parameters, next) && SameShape(parameters, m.first) && SameShape(parameters, m.second)
            && AdamHolds(k, m, p, xs + [x])
  {
    hide Stepped, Real, At, In, Weighted, RPow, SameShape, Quotient;
    var update, root := AdamAt(fl, k, parameters, s, g, rate, p);
    RPowStep(k.beta1, |xs|);
    RPowStep(k.beta2, |xs|);
    AverageGrows(k.beta1, xs, x);
    AverageGrows(k.beta2, Squares(xs), x * x);
    SquaresGrow(xs, x);
  }

  lemma SquaresGrow(xs: seq<real>, x: real)
    ensures Squares(xs + [x]) == Squares(xs) + [x * x]
  {
    var a, b := Squares(xs + [x]), Squares(xs) + [x * x];
    forall i | 0 <= i < |a|
      ensures a[i] == b[i]
    {
      if i < |xs| {
        assert (xs + [x])[i] == xs[i];
      } else {
        assert (xs + [x])[i] == x;
      }
    }
    assert |a| == |b|;
  }

  lemma AverageGrows(beta: real, xs: seq<real>, x: real)
    ensures (1.0 - beta) * Weighted(beta, xs + [x], |xs| + 1)
         == beta * ((1.0 - beta) * Weighted(beta, xs, |xs|)) + (1.0 - beta) * x
  {
    WeightedNext(beta, xs, x);
    var sum := Weighted(beta, xs, |xs|);
    assert (1.0 - beta) * (beta * sum + x) == beta * ((1.0 - beta) * sum) + (1.0 - beta) * x;
  }

  /** Bias correction: on a constant gradient the corrected averages are the gradient
      and its square. */
  lemma CorrectedAverages(k: Coefficients<real>, m: Moments<real>, p: Place, xs: seq<real>, x: real)
    requires AdamHolds(k, m, p, xs) && forall i :: 0 <= i < |xs| ==> xs[i] == x
    ensures In(m.first, p) && In(m.second, p)
    ensures At(m.first, p) == (1.0 - m.power1) * x
    ensures At(m.second, p) == (1.0 - m.power2) * (x * x)
  {
    hide Weighted, RPow, At, In;
    WeightedConstant(k.beta1, xs, x);
    WeightedConstant(k.beta2, Squares(xs), x * x);
  }

  /** So Adam moves by the rate along the sign of a constant gradient, whatever its
      size, but for epsilon. */
  lemma ConstantGradientStep(fl: Floats<real>, k: Coefficients<real>, parameters: seq<Layer<real>>, s: Moments<real>,
                             g: seq<Layer<real>>, rate: real, p: Place, xs: seq<real>, x: real)
    requires Real(fl) && SameShape(parameters, s.first) && SameShape(parameters, s.second) && SameShape(parameters, g)
    requires In(parameters, p) && Stepped(fl, Adam, k, parameters, s, g, rate).Some?
    requires AdamHolds(k, s, p, xs) && In(g, p) && At(g, p) == x && forall i :: 0 <= i < |xs| ==> xs[i] == x
    ensures var next := Stepped(fl, Adam, k, parameters, s, g, rate).value.0;
            In(next, p) && (At(next, p) - At(parameters, p)) * (Abs(x) + k.epsilon) == -rate * x
  {
    hide Stepped, Real, AdamHolds, Quotient, AdamMoves, At, In, SameShape;
    AdamStepHolds(fl, k, parameters, s, g, rate, p, xs, x);
    var update, root := AdamAt(fl, k, parameters, s, g, rate, p);
    var (next, m) := Stepped(fl, Adam, k, parameters, s, g, rate).value;
    CorrectedAverages(k, m, p, xs + [x], x);
    ConstantMove(k, parameters, s, g, rate, p, next, m, update, root, x);
  }

  lemma ConstantMove(k: Coefficients<real>, parameters: seq<Layer<real>>, s: Moments<real>, g: seq<Layer<real>>,
                     rate: real, p: Place, next: seq<Layer<real>>, m: Moments<real>, update: real, root: real, x: real)
    requires AdamMoves(k, parameters, s, g, rate, p, next, m, update, root)
    requires At(m.first, p) == (1.0 - m.power1) * x && At(m.second, p) == (1.0 - m.power2) * (x * x)
    ensures In(next, p) && In(parameters, p)
    ensures (At(next, p) - At(parameters, p)) * (Abs(x) + k.epsilon) == -rate * x
  {
    hide *;
    UpdateOf(k, parameters, s, g, rate, p, next, m, update, root);
    var first, c1, second, c2 := At(m.first, p), 1.0 - m.power1, At(m.second, p), 1.0 - m.power2;
    SignedMove(update, root, k.epsilon, x, first, c1, second, c2, rate, At(parameters, p), At(next, p));
  }

  lemma SignedMove(update: real, root: real, epsilon: real, x: real, first: real, c1: real, second: real, c2: real,
                   rate: real, from: real, to: real)
    requires c1 > 0.0 && c2 > 0.0 && first == c1 * x && second == c2 * (x * x)
    requires second >= 0.0 ==> Quotient(update, root, epsilon, first, c1, second, c2)
    requires to == from - rate * update
    ensures (to - from) * (Abs(x) + epsilon) == -rate * x
  {
    hide *;
    SignedUpdate(update, root, epsilon, x, first, c1, second, c2);
    Scaled(rate, update, Abs(x) + epsilon, x, from, to);
  }

  lemma UpdateOf(k: Coefficients<real>, parameters: seq<Layer<real>>, s: Moments<real>, g: seq<Layer<real>>,
                 rate: real, p: Place, next: seq<Layer<real>>, m: Moments<real>, update: real, root: real)
    requires AdamMoves(k, parameters, s, g, rate, p, next, m, update, root)
    ensures In(m.first, p) && In(m.second, p) && In(next, p) && In(parameters, p)
    ensures m.power1 < 1.0 && m.power2 < 1.0 && At(next, p) == At(parameters, p) - rate * update
    ensures At(m.second, p) >= 0.0 ==>
              Quotient(update, root, k.epsilon, At(m.first, p), 1.0 - m.power1, At(m.second, p), 1.0 - m.power2)
  {
    hide Quotient, At, In;
  }

  function Abs(x: real): real {
    if x < 0.0 then -x else x
  }

  lemma SignedUpdate(update: real, root: real, epsilon: real, x: real, first: real, c1: real, second: real, c2: real)
    requires c1 > 0.0 && c2 > 0.0 && first == c1 * x && second == c2 * (x * x)
    requires second >= 0.0 ==> Quotient(update, root, epsilon, first, c1, second, c2)
    ensures update * (Abs(x) + epsilon) == x
  {
    SquareIsNonNegative(x, c2);
    Cancel(root * root, x * x, c2);
    SameRoot(root, x);
    Cancel(update * (root + epsilon), x, c1);
  }

  lemma SquareIsNonNegative(x: real, c: real)
    requires c > 0.0
    ensures c * (x * x) >= 0.0
  {
    assert x * x >= 0.0;
  }

  lemma Cancel(a: real, b: real, c: real)
    requires c > 0.0 && a * c == c * b
    ensures a == b
  {
    assert (a - b) * c == 0.0;
  }

  lemma SameRoot(root: real, x: real)
    requires root >= 0.0 && root * root == x * x
    ensures root == Abs(x)
  {
    var a := Abs(x);
    assert a * a == x * x;
    if root > a {
      SquareGrows(a, root);
    } else if root < a {
      SquareGrows(root, a);
    }
  }

  lemma SquareGrows(a: real, b: real)
    requires 0.0 <= a < b
    ensures a * a < b * b
  {
    assert b * b - a * a == (b - a) * (b + a);
    PositiveTimes(b - a, b + a);
  }

  lemma PositiveTimes(a: real, b: real)
    requires a > 0.0 && b > 0.0
    ensures a * b > 0.0
  {
  }

  lemma Scaled(rate: real, update: real, size: real, x: real, from: real, to: real)
    requires update * size == x && to == from - rate * update
    ensures (to - from) * size == -rate * x
  {
    assert to - from == -(rate * update);
    assert (-(rate * update)) * size == -rate * (update * size);
  }
}
