/** One optimizer step over abstract floating-point operations: whatever they
    round to, a step either happens completely or not at all. */
module OptimizerStep {
  import opened Options
  import opened Words
  import opened Schedule
  import opened Layers

  datatype Floats<!F> = Floats(
    zero: F, one: F,
    add: (F, F) -> F, sub: (F, F) -> F, mul: (F, F) -> F, div: (F, F) -> F, sqrt: F -> F,
    finite: F -> bool, positive: F -> bool)

  predicate SameShape<F>(a: seq<Layer<F>>, b: seq<Layer<F>>) {
    && |a| == |b|
    && forall i :: 0 <= i < |a| ==> |a[i].weights| == |b[i].weights| && |a[i].biases| == |b[i].biases|
  }

  ghost predicate AllFinite<F>(fl: Floats<F>, values: seq<F>) {
    forall i :: 0 <= i < |values| ==> fl.finite(values[i])
  }

  ghost predicate LayersFinite<F>(fl: Floats<F>, layers: seq<Layer<F>>) {
    forall i :: 0 <= i < |layers| ==> AllFinite(fl, layers[i].weights) && AllFinite(fl, layers[i].biases)
  }

  // ---------- elementwise meaning ----------

  ghost function Zip<F>(f: (F, F) -> F, a: seq<F>, b: seq<F>): (c: seq<F>)
    requires |a| == |b|
    ensures |c| == |a| && forall i :: 0 <= i < |c| ==> c[i] == f(a[i], b[i])
  {
    seq(|a|, i requires 0 <= i < |a| => f(a[i], b[i]))
  }

  ghost function ZipLayer<F>(f: (F, F) -> F, a: Layer<F>, b: Layer<F>): Layer<F>
    requires |a.weights| == |b.weights| && |a.biases| == |b.biases|
  {
    Layer(Zip(f, a.weights, b.weights), Zip(f, a.biases, b.biases))
  }

  ghost function ZipLayers<F>(f: (F, F) -> F, a: seq<Layer<F>>, b: seq<Layer<F>>): (c: seq<Layer<F>>)
    requires SameShape(a, b)
    ensures SameShape(a, c) && forall i :: 0 <= i < |c| ==> c[i] == ZipLayer(f, a[i], b[i])
  {
    seq(|a|, i requires 0 <= i < |a| => ZipLayer(f, a[i], b[i]))
  }

  /** parameter - rate * gradient */
  function Descend<F>(fl: Floats<F>, rate: F): (F, F) -> F {
    (p, g) => fl.sub(p, fl.mul(rate, g))
  }

  /** coefficient * state + gradient */
  function Momentum1<F>(fl: Floats<F>, coefficient: F): (F, F) -> F {
    (s, g) => fl.add(fl.mul(coefficient, s), g)
  }

  /** beta1 * m + (1 - beta1) * g */
  function AdamFirst<F>(fl: Floats<F>, beta: F): (F, F) -> F {
    (m, g) => fl.add(fl.mul(beta, m), fl.mul(fl.sub(fl.one, beta), g))
  }

  /** beta2 * v + (1 - beta2) * g * g */
  function AdamSecond<F>(fl: Floats<F>, beta: F): (F, F) -> F {
    (v, g) => fl.add(fl.mul(beta, v), fl.mul(fl.sub(fl.one, beta), fl.mul(g, g)))
  }

  function AdamDenominator<F>(fl: Floats<F>, correction: F, epsilon: F): F -> F {
    v => fl.add(fl.sqrt(fl.div(v, correction)), epsilon)
  }

  /** (m / correction1) / (sqrt(v / correction2) + epsilon) */
  function AdamUpdate<F>(fl: Floats<F>, c1: F, c2: F, epsilon: F): (F, F) -> F {
    (m, v) => fl.div(fl.div(m, c1), AdamDenominator(fl, c2, epsilon)(v))
  }

  // ---------- the model ----------

  class Model<F> {
    var layers: seq<Layer<F>>

    constructor (layers: seq<Layer<F>>)
      ensures this.layers == layers
    {
      this.layers := layers;
    }

    /** Validates the dimensions and every value before it copies anything. */
    method SetLayerParameters(fl: Floats<F>, index: nat, weights: seq<F>, biases: seq<F>) returns (ok: bool)
      modifies this
      ensures ok <==> && index < |old(layers)|
                      && |weights| == |old(layers)[index].weights| && |biases| == |old(layers)[index].biases|
                      && AllFinite(fl, weights) && AllFinite(fl, biases)
      ensures ok ==> layers == old(layers)[index := Layer(weights, biases)]
      ensures !ok ==> layers == old(layers)
    {
      if index >= |layers|
         || |weights| != |layers[index].weights| || |biases| != |layers[index].biases| {
        return false;
      }
      var weightsFinite := EveryFinite(fl, weights);
      if !weightsFinite {
        return false;
      }
      var biasesFinite := EveryFinite(fl, biases);
      if !biasesFinite {
        return false;
      }
      layers := layers[index := Layer(weights, biases)];
      return true;
    }

    /** The commit pass re-validates every layer and could fail midway; staged
        values that are finite and well shaped never let it. */
    method Commit(fl: Floats<F>, staged: seq<Layer<F>>)
      requires SameShape(layers, staged) && LayersFinite(fl, staged)
      modifies this
      ensures layers == staged
    {
      ghost var before := layers;
      for index := 0 to |staged|
        invariant layers == staged[..index] + before[index..]
      {
        var committed := SetLayerParameters(fl, index, staged[index].weights, staged[index].biases);
        assert committed;
      }
    }

    method ApplyGradient(fl: Floats<F>, gradient: seq<Layer<F>>, rate: F) returns (ok: bool)
      requires SameShape(layers, gradient)
      modifies this
      ensures match Descended(fl, old(layers), gradient, rate)
              case Some(next) => ok && layers == next
              case None => !ok && layers == old(layers)
    {
      if !fl.finite(rate) || !fl.positive(rate) {
        return false;
      }
      var staged;
      ok, staged := ZipFiniteLayers(fl, Descend(fl, rate), layers, gradient);
      if ok {
        Commit(fl, staged);
      }
    }
  }

  /** Layer by layer, weights before biases; stops at the first value that is not
      finite. */
  method ZipFiniteLayers<F>(fl: Floats<F>, f: (F, F) -> F, a: seq<Layer<F>>, b: seq<Layer<F>>)
    returns (ok: bool, c: seq<Layer<F>>)
    requires SameShape(a, b)
    ensures ok <==> LayersFinite(fl, ZipLayers(f, a, b))
    ensures ok ==> c == ZipLayers(f, a, b)
  {
    ghost var goal := ZipLayers(f, a, b);
    c := [];
    for index := 0 to |a|
      invariant c == goal[..index] && LayersFinite(fl, c)
    {
      var weightsOk, weights := ZipFinite(fl, f, a[index].weights, b[index].weights);
      if !weightsOk {
        assert !AllFinite(fl, goal[index].weights);
        return false, c;
      }
      var biasesOk, biases := ZipFinite(fl, f, a[index].biases, b[index].biases);
      if !biasesOk {
        assert !AllFinite(fl, goal[index].biases);
        return false, c;
      }
      c := c + [Layer(weights, biases)];
    }
    return true, c;
  }

  method EveryFinite<F>(fl: Floats<F>, values: seq<F>) returns (ok: bool)
    ensures ok <==> AllFinite(fl, values)
  {
    for i := 0 to |values|
      invariant forall k :: 0 <= k < i ==> fl.finite(values[k])
    {
      if !fl.finite(values[i]) {
        return false;
      }
    }
    return true;
  }

  /** One array: stops at the first value that is not finite. */
  method ZipFinite<F>(fl: Floats<F>, f: (F, F) -> F, a: seq<F>, b: seq<F>) returns (ok: bool, c: seq<F>)
    requires |a| == |b|
    ensures ok <==> AllFinite(fl, Zip(f, a, b))
    ensures ok ==> c == Zip(f, a, b)
  {
    c := [];
    for i := 0 to |a|
      invariant c == Zip(f, a, b)[..i] && AllFinite(fl, c)
    {
      c := c + [f(a[i], b[i])];
      if !fl.finite(c[i]) {
        assert c[i] == Zip(f, a, b)[i];
        return false, c;
      }
    }
    return true, c;
  }

  // ---------- the optimizer ----------

  class Gradient<F> {
    var layers: seq<Layer<F>>

    constructor (layers: seq<Layer<F>>)
      ensures this.layers == layers
    {
      this.layers := layers;
    }
  }

  datatype Coefficients<F> = Coefficients(momentum: F, beta1: F, beta2: F, epsilon: F)

  /** The extra checks of the Adam recurrence, element by element. */
  ghost predicate AdamElement<F>(fl: Floats<F>, k: Coefficients<F>, c1: F, c2: F, m: F, v: F, g: F) {
    var v2 := AdamSecond(fl, k.beta2)(v, g);
    var denominator := AdamDenominator(fl, c2, k.epsilon)(v2);
    && fl.finite(fl.mul(g, g)) && fl.finite(AdamFirst(fl, k.beta1)(m, g)) && fl.finite(v2)
    && fl.positive(denominator) && fl.finite(denominator)
    && fl.finite(AdamUpdate(fl, c1, c2, k.epsilon)(AdamFirst(fl, k.beta1)(m, g), v2))
  }

  ghost predicate AdamArray<F>(fl: Floats<F>, k: Coefficients<F>, c1: F, c2: F, m: seq<F>, v: seq<F>, g: seq<F>)
    requires |m| == |v| == |g|
  {
    forall i :: 0 <= i < |m| ==> AdamElement(fl, k, c1, c2, m[i], v[i], g[i])
  }

  ghost predicate AdamLayer<F>(fl: Floats<F>, k: Coefficients<F>, c1: F, c2: F, m: Layer<F>, v: Layer<F>, g: Layer<F>)
    requires |m.weights| == |v.weights| == |g.weights| && |m.biases| == |v.biases| == |g.biases|
  {
    && AdamArray(fl, k, c1, c2, m.weights, v.weights, g.weights)
    && AdamArray(fl, k, c1, c2, m.biases, v.biases, g.biases)
  }

  ghost predicate AdamLayers<F>(fl: Floats<F>, k: Coefficients<F>, c1: F, c2: F,
                                m: seq<Layer<F>>, v: seq<Layer<F>>, g: seq<Layer<F>>)
    requires SameShape(m, v) && SameShape(m, g)
  {
    forall i :: 0 <= i < |m| ==> AdamLayer(fl, k, c1, c2, m[i], v[i], g[i])
  }

  method AdamValues<F>(fl: Floats<F>, k: Coefficients<F>, c1: F, c2: F, m: seq<F>, v: seq<F>, g: seq<F>)
    returns (ok: bool, m2: seq<F>, v2: seq<F>, u: seq<F>)
    requires |m| == |v| == |g|
    ensures ok <==> AdamArray(fl, k, c1, c2, m, v, g)
    ensures ok ==> m2 == Zip(AdamFirst(fl, k.beta1), m, g) && v2 == Zip(AdamSecond(fl, k.beta2), v, g)
    ensures ok ==> u == Zip(AdamUpdate(fl, c1, c2, k.epsilon), m2, v2)
  {
    m2, v2, u := [], [], [];
    for i := 0 to |m|
      invariant |m2| == |v2| == |u| == i
      invariant forall j :: 0 <= j < i ==>
                  && m2[j] == AdamFirst(fl, k.beta1)(m[j], g[j])
                  && v2[j] == AdamSecond(fl, k.beta2)(v[j], g[j])
                  && u[j] == AdamUpdate(fl, c1, c2, k.epsilon)(m2[j], v2[j])
                  && AdamElement(fl, k, c1, c2, m[j], v[j], g[j])
    {
      var square := fl.mul(g[i], g[i]);
      var first := fl.add(fl.mul(k.beta1, m[i]), fl.mul(fl.sub(fl.one, k.beta1), g[i]));
      var second := fl.add(fl.mul(k.beta2, v[i]), fl.mul(fl.sub(fl.one, k.beta2), square));
      var denominator := fl.add(fl.sqrt(fl.div(second, c2)), k.epsilon);
      var update := fl.div(fl.div(first, c1), denominator);
      assert first == AdamFirst(fl, k.beta1)(m[i], g[i]);
      assert second == AdamSecond(fl, k.beta2)(v[i], g[i]);
      assert denominator == AdamDenominator(fl, c2, k.epsilon)(second);
      assert update == AdamUpdate(fl, c1, c2, k.epsilon)(first, second);
      m2, v2, u := m2 + [first], v2 + [second], u + [update];
      if !fl.finite(square) || !fl.finite(first) || !fl.finite(second) || !fl.positive(denominator)
         || !fl.finite(denominator) || !fl.finite(update) {
        assert !AdamElement(fl, k, c1, c2, m[i], v[i], g[i]);
        return false, m2, v2, u;
      }
    }
    return true, m2, v2, u;
  }

  method AdamOneLayer<F>(fl: Floats<F>, k: Coefficients<F>, c1: F, c2: F, m: Layer<F>, v: Layer<F>, g: Layer<F>)
    returns (ok: bool, m2: Layer<F>, v2: Layer<F>, u: Layer<F>)
    requires |m.weights| == |v.weights| == |g.weights| && |m.biases| == |v.biases| == |g.biases|
    ensures ok <==> AdamLayer(fl, k, c1, c2, m, v, g)
    ensures ok ==> m2 == ZipLayer(AdamFirst(fl, k.beta1), m, g) && v2 == ZipLayer(AdamSecond(fl, k.beta2), v, g)
    ensures ok ==> u == ZipLayer(AdamUpdate(fl, c1, c2, k.epsilon), m2, v2)
  {
    m2, v2, u := m, v, g;
    var wm, wv, wu, bm, bv, bu;
    ok, wm, wv, wu := AdamValues(fl, k, c1, c2, m.weights, v.weights, g.weights);
    if !ok {
      return;
    }
    ok, bm, bv, bu := AdamValues(fl, k, c1, c2, m.biases, v.biases, g.biases);
    if !ok {
      return;
    }
    m2, v2, u := Layer(wm, bm), Layer(wv, bv), Layer(wu, bu);
  }

  method AdamCandidates<F>(fl: Floats<F>, k: Coefficients<F>, c1: F, c2: F,
                           m: seq<Layer<F>>, v: seq<Layer<F>>, g: seq<Layer<F>>)
    returns (ok: bool, m2: seq<Layer<F>>, v2: seq<Layer<F>>, u: seq<Layer<F>>)
    requires SameShape(m, v) && SameShape(m, g)
    ensures ok <==> AdamLayers(fl, k, c1, c2, m, v, g)
    ensures ok ==> m2 == ZipLayers(AdamFirst(fl, k.beta1), m, g) && v2 == ZipLayers(AdamSecond(fl, k.beta2), v, g)
    ensures ok ==> u == ZipLayers(AdamUpdate(fl, c1, c2, k.epsilon), m2, v2)
  {
    hide AdamLayer, ZipLayer;
    ghost var goal1, goal2 := ZipLayers(AdamFirst(fl, k.beta1), m, g), ZipLayers(AdamSecond(fl, k.beta2), v, g);
    ghost var goal3 := ZipLayers(AdamUpdate(fl, c1, c2, k.epsilon), goal1, goal2);
    m2, v2, u := [], [], [];
    for i := 0 to |m|
      invariant m2 == goal1[..i] && v2 == goal2[..i] && u == goal3[..i]
      invariant forall j :: 0 <= j < i ==> AdamLayer(fl, k, c1, c2, m[j], v[j], g[j])
    {
      var layerOk, lm, lv, lu := AdamOneLayer(fl, k, c1, c2, m[i], v[i], g[i]);
      if !layerOk {
        return false, m2, v2, u;
      }
      m2, v2, u := m2 + [lm], v2 + [lv], u + [lu];
    }
    return true, m2, v2, u;
  }

  /** Everything a later step can depend on. */
  datatype Moments<F> = Moments(timestep: Word, power1: F, power2: F, first: seq<Layer<F>>, second: seq<Layer<F>>)

  /** parameters - rate * direction, when the rate is usable and all of it is finite */
  ghost function Descended<F>(fl: Floats<F>, parameters: seq<Layer<F>>, direction: seq<Layer<F>>, rate: F)
    : (r: Option<seq<Layer<F>>>)
    requires SameShape(parameters, direction)
    ensures r.Some? ==> SameShape(parameters, r.value)
  {
    var next := ZipLayers(Descend(fl, rate), parameters, direction);
    if fl.finite(rate) && fl.positive(rate) && LayersFinite(fl, next) then Some(next) else None
  }

  /** v' = coefficient * v + g, and v' descends. */
  ghost function MomentumStepped<F>(fl: Floats<F>, k: Coefficients<F>, parameters: seq<Layer<F>>, s: Moments<F>,
                                    g: seq<Layer<F>>, rate: F): Option<(seq<Layer<F>>, Moments<F>)>
    requires SameShape(parameters, s.first) && SameShape(parameters, g)
  {
    var velocity := ZipLayers(Momentum1(fl, k.momentum), s.first, g);
    if s.timestep == SIZE_MAX || !LayersFinite(fl, velocity) then
      None
    else
      match Descended(fl, parameters, velocity, rate)
      case None => None
      case Some(next) => Some((next, s.(timestep := s.timestep + 1, first := velocity)))
  }

  datatype Proposal<F> = Proposal(power1: F, power2: F, first: seq<Layer<F>>, second: seq<Layer<F>>,
                                  update: seq<Layer<F>>)

  /** Adam's recurrence with bias-corrected powers. */
  ghost function AdamProposal<F>(fl: Floats<F>, k: Coefficients<F>, s: Moments<F>, g: seq<Layer<F>>)
    : (r: Option<Proposal<F>>)
    requires SameShape(s.first, s.second) && SameShape(s.first, g)
    ensures r.Some? ==> SameShape(g, r.value.first) && SameShape(g, r.value.second) && SameShape(g, r.value.update)
  {
    var p1, p2 := fl.mul(s.power1, k.beta1), fl.mul(s.power2, k.beta2);
    var c1, c2 := fl.sub(fl.one, p1), fl.sub(fl.one, p2);
    if !fl.finite(p1) || !fl.finite(p2) || !fl.positive(c1) || !fl.positive(c2)
       || !AdamLayers(fl, k, c1, c2, s.first, s.second, g) then
      None
    else
      var m := ZipLayers(AdamFirst(fl, k.beta1), s.first, g);
      var v := ZipLayers(AdamSecond(fl, k.beta2), s.second, g);
      Some(Proposal(p1, p2, m, v, ZipLayers(AdamUpdate(fl, c1, c2, k.epsilon), m, v)))
  }

  method ProposeAdam<F>(fl: Floats<F>, k: Coefficients<F>, power1: F, power2: F,
                        first: seq<Layer<F>>, second: seq<Layer<F>>, g: seq<Layer<F>>)
    returns (ok: bool, p: Proposal<F>)
    requires SameShape(first, second) && SameShape(first, g)
    ensures forall n: Word :: match AdamProposal(fl, k, Moments(n, power1, power2, first, second), g)
                              case Some(q) => ok && p == q
                              case None => !ok
  {
    hide AdamLayers, ZipLayers;
    var p1, p2 := fl.mul(power1, k.beta1), fl.mul(power2, k.beta2);
    var c1, c2 := fl.sub(fl.one, p1), fl.sub(fl.one, p2);
    p := Proposal(p1, p2, first, second, g);
    if !fl.finite(p1) || !fl.finite(p2) || !fl.positive(c1) || !fl.positive(c2) {
      return false, p;
    }
    var m, v, u;
    ok, m, v, u := AdamCandidates(fl, k, c1, c2, first, second, g);
    p := Proposal(p1, p2, m, v, u);
  }

  ghost function AdamStepped<F>(fl: Floats<F>, k: Coefficients<F>, parameters: seq<Layer<F>>, s: Moments<F>,
                                g: seq<Layer<F>>, rate: F): Option<(seq<Layer<F>>, Moments<F>)>
    requires SameShape(parameters, s.first) && SameShape(parameters, s.second) && SameShape(parameters, g)
  {
    if s.timestep == SIZE_MAX then
      None
    else
      match AdamProposal(fl, k, s, g)
      case None => None
      case Some(p) =>
        match Descended(fl, parameters, p.update, rate)
        case None => None
        case Some(next) => Some((next, Moments(s.timestep + 1, p.power1, p.power2, p.first, p.second)))
  }

  /** What one step makes of the parameters and the moments; None is a refusal. */
  ghost function Stepped<F>(fl: Floats<F>, kind: Kind, k: Coefficients<F>, parameters: seq<Layer<F>>, s: Moments<F>,
                            g: seq<Layer<F>>, rate: F): Option<(seq<Layer<F>>, Moments<F>)>
    requires SameShape(parameters, s.first) && SameShape(parameters, s.second) && SameShape(parameters, g)
  {
    match kind
    case GradientDescent =>
      (match Descended(fl, parameters, g, rate)
       case None => None
       case Some(next) => Some((next, s)))
    case Momentum => MomentumStepped(fl, k, parameters, s, g, rate)
    case Adam => AdamStepped(fl, k, parameters, s, g, rate)
  }

  /** Gradient descent keeps no state, so a checkpoint may leave it out. */
  lemma GradientDescentIsStateless<F>(fl: Floats<F>, k: Coefficients<F>, parameters: seq<Layer<F>>,
                                      s: Moments<F>, t: Moments<F>, g: seq<Layer<F>>, rate: F)
    requires SameShape(parameters, s.first) && SameShape(parameters, s.second) && SameShape(parameters, g)
    requires SameShape(parameters, t.first) && SameShape(parameters, t.second)
    ensures var a, b := Stepped(fl, GradientDescent, k, parameters, s, g, rate),
                        Stepped(fl, GradientDescent, k, parameters, t, g, rate);
            && (a.Some? <==> b.Some?)
            && (a.Some? ==> a.value.0 == b.value.0 && a.value.1 == s && b.value.1 == t)
  {
  }

  class Optimizer<F> {
    const fl: Floats<F>
    const kind: Kind
    const k: Coefficients<F>
    var timestep: Word
    var beta1Power: F
    var beta2Power: F
    var state1: Gradient<F>
    var state2: Gradient<F>
    var candidate1: Gradient<F>
    var candidate2: Gradient<F>
    var update: Gradient<F>

    ghost function Buffers(): set<object>
      reads this
    {
      {state1, state2, candidate1, candidate2, update}
    }

    /** The five buffers are distinct and shaped like the model. */
    ghost predicate Valid(shape: seq<Layer<F>>)
      reads this, Buffers()
    {
      && state1 != state2 && state1 != candidate1 && state1 != candidate2 && state1 != update
      && state2 != candidate1 && state2 != candidate2 && state2 != update
      && candidate1 != candidate2 && candidate1 != update && candidate2 != update
      && SameShape(shape, state1.layers) && SameShape(shape, state2.layers)
    }

    constructor (fl: Floats<F>, kind: Kind, k: Coefficients<F>, zeros: seq<Layer<F>>)
      ensures this.fl == fl && this.kind == kind && this.k == k
      ensures Valid(zeros) && fresh(Buffers())
      ensures timestep == 0 && beta1Power == fl.one && beta2Power == fl.one
      ensures state1.layers == zeros && state2.layers == zeros
    {
      this.fl, this.kind, this.k := fl, kind, k;
      timestep, beta1Power, beta2Power := 0, fl.one, fl.one;
      state1 := new Gradient(zeros);
      state2 := new Gradient(zeros);
      candidate1 := new Gradient(zeros);
      candidate2 := new Gradient(zeros);
      update := new Gradient(zeros);
    }

    ghost function State(): Moments<F>
      reads this, Buffers()
    {
      Moments(timestep, beta1Power, beta2Power, state1.layers, state2.layers)
    }

    /** The candidate becomes the state by swapping the two references. */
    method MomentumStep(model: Model<F>, gradient: seq<Layer<F>>, rate: F) returns (ok: bool)
      requires Valid(model.layers) && SameShape(model.layers, gradient)
      modifies this, model, candidate1
      ensures Valid(model.layers) && Buffers() == old(Buffers())
      ensures match MomentumStepped(fl, k, old(model.layers), old(State()), gradient, rate)
              case Some((next, s)) => ok && model.layers == next && State() == s
              case None => !ok && model.layers == old(model.layers) && State() == old(State())
    {
      if timestep == SIZE_MAX {
        return false;
      }
      var built, velocity := ZipFiniteLayers(fl, Momentum1(fl, k.momentum), state1.layers, gradient);
      candidate1.layers := velocity;
      if !built {
        return false;
      }
      var applied := model.ApplyGradient(fl, candidate1.layers, rate);
      if !applied {
        return false;
      }
      state1, candidate1 := candidate1, state1;
      timestep := timestep + 1;
      return true;
    }

    method AdamStep(model: Model<F>, gradient: seq<Layer<F>>, rate: F) returns (ok: bool)
      requires Valid(model.layers) && SameShape(model.layers, gradient)
      modifies this, model, candidate1, candidate2, update
      ensures Valid(model.layers) && Buffers() == old(Buffers())
      ensures match AdamStepped(fl, k, old(model.layers), old(State()), gradient, rate)
              case Some((next, s)) => ok && model.layers == next && State() == s
              case None => !ok && model.layers == old(model.layers) && State() == old(State())
    {
      hide AdamProposal, Descended;
      if timestep == SIZE_MAX {
        return false;
      }
      var built, p := ProposeAdam(fl, k, beta1Power, beta2Power, state1.layers, state2.layers, gradient);
      assert match AdamProposal(fl, k, State(), gradient) case Some(q) => built && p == q case None => !built;
      candidate1.layers, candidate2.layers, update.layers := p.first, p.second, p.update;
      if !built {
        return false;
      }
      var applied := model.ApplyGradient(fl, update.layers, rate);
      if !applied {
        return false;
      }
      SwapAdam(p, model.layers);
      return true;
    }

    /** The candidates become the moments by swapping references. */
    method SwapAdam(p: Proposal<F>, ghost shape: seq<Layer<F>>)
      requires Valid(shape) && timestep < SIZE_MAX
      requires candidate1.layers == p.first && candidate2.layers == p.second
      requires SameShape(shape, p.first) && SameShape(shape, p.second)
      modifies this
      ensures Valid(shape) && Buffers() == old(Buffers())
      ensures State() == Moments(old(timestep) + 1, p.power1, p.power2, p.first, p.second)
    {
      state1, candidate1 := candidate1, state1;
      state2, candidate2 := candidate2, state2;
      beta1Power, beta2Power := p.power1, p.power2;
      timestep := timestep + 1;
    }

    /** All or nothing: the step computes Stepped, or leaves the parameters, both
        moments, the powers and the counter as they were. */
    method StepOnce(model: Model<F>, gradient: seq<Layer<F>>, rate: F) returns (ok: bool)
      requires Valid(model.layers) && SameShape(model.layers, gradient)
      modifies this, model, candidate1, candidate2, update
      ensures Valid(model.layers) && Buffers() == old(Buffers())
      ensures match Stepped(fl, kind, k, old(model.layers), old(State()), gradient, rate)
              case Some((next, s)) => ok && model.layers == next && State() == s
              case None => !ok && model.layers == old(model.layers) && State() == old(State())
    {
      match kind
      case GradientDescent =>
        ok := model.ApplyGradient(fl, gradient, rate);
      case Momentum =>
        ok := MomentumStep(model, gradient, rate);
      case Adam =>
        ok := AdamStep(model, gradient, rate);
    }
  }
}
