/** Whole networks: the forward pass lifted to dual numbers, the reverse pass over
    the layers, and the proof that one is the transpose of the other. */
module Backprop {
  import opened Calculus
  import opened Dense
  import opened Activations
  import opened Losses

  datatype Layer = Layer(dense: Parameters, activation: Activation)

  /** Every layer takes what the one before it produces. */
  predicate Chained(layers: seq<Layer>, inputs: nat) {
    layers != [] ==>
      && layers[0].dense.Valid() && layers[0].dense.inputs == inputs
      && Chained(layers[1..], layers[0].dense.neurons)
  }

  function Outputs(layers: seq<Layer>): nat
    requires layers != []
  {
    layers[|layers| - 1].dense.neurons
  }

  /** The loss and the targets suit the last layer. */
  predicate Accepted(layers: seq<Layer>, loss: Loss, t: seq<real>) {
    && layers != [] && |t| == Outputs(layers)
    && OutputAccepted(loss, layers[|layers| - 1].activation, |t|) && TargetsAccepted(loss, t)
  }

  ghost predicate Fitting(layers: seq<Layer>, dirs: seq<Change>) {
    |dirs| == |layers| && forall i :: 0 <= i < |layers| ==> dirs[i].Fits(layers[i].dense)
  }

  /** What the trainer minimises. */
  function LossOf(f: Library, layers: seq<Layer>, x: seq<real>, loss: Loss, t: seq<real>): real
    requires Lawful(f) && layers != [] && Chained(layers, |x|) && |t| == Outputs(layers)
  {
    var z := Pre(layers[0].dense, x);
    var a := Apply(f, layers[0].activation, z);
    if |layers| == 1 then LossValue(f, loss, z, a, t) else LossOf(f, layers[1..], a, loss, t)
  }

  /** The same computation on dual numbers. */
  function DualLossOf(f: Library, layers: seq<Layer>, dirs: seq<Change>, x: Vec, loss: Loss, t: seq<real>): Dual
    requires Lawful(f) && layers != [] && x.Valid() && Chained(layers, |x.v|) && Fitting(layers, dirs)
    requires |t| == Outputs(layers)
  {
    var z := DualPre(layers[0].dense, dirs[0], x);
    var a := DualApply(f, layers[0].activation, z);
    if |layers| == 1 then DualLoss(f, loss, z, a, t) else DualLossOf(f, layers[1..], dirs[1..], a, loss, t)
  }

  // ---------- the reverse pass ----------

  datatype Gradients = Gradients(inputs: seq<real>, layers: seq<Change>)

  /** Gradients of one layer from the gradient of its pre-activations. */
  function LayerGradients(l: Parameters, x: seq<real>, g: seq<real>): Gradients
    requires l.Valid() && |x| == l.inputs && |g| == l.neurons
  {
    Gradients(InputGradient(l, g, l.neurons), [Change(WeightGradient(g, x, l.neurons), g)])
  }

  /** The gradient of the last layer's pre-activations. */
  function OutputGradient(loss: Loss, act: Activation, z: seq<real>, a: seq<real>, t: seq<real>): (g: seq<real>)
    requires 0 < |z| == |a| == |t|
    ensures |g| == |z|
  {
    if loss == Mse then
      MseSlopes(a, t);
      Activations.Backward(act, z, a, LossGradient(Mse, a, t))
    else
      FusedGradient(loss, a, t)
  }

  function Reverse(f: Library, layers: seq<Layer>, x: seq<real>, loss: Loss, t: seq<real>): (r: Gradients)
    requires Lawful(f) && layers != [] && Chained(layers, |x|) && |t| == Outputs(layers)
    ensures |r.inputs| == |x| && |r.layers| == |layers|
  {
    var l := layers[0];
    var z := Pre(l.dense, x);
    var a := Apply(f, l.activation, z);
    if |layers| == 1 then
      LayerGradients(l.dense, x, OutputGradient(loss, l.activation, z, a, t))
    else
      var rest := Reverse(f, layers[1..], a, loss, t);
      var own := LayerGradients(l.dense, x, Activations.Backward(l.activation, z, a, rest.inputs));
      Gradients(own.inputs, own.layers + rest.layers)
  }

  ghost predicate SameSizes(a: seq<Change>, b: seq<Change>) {
    |a| == |b| && forall i :: 0 <= i < |a| ==> |a[i].weights| == |b[i].weights| && |a[i].biases| == |b[i].biases|
  }

  /** The inner product of a direction with the gradients, layer by layer. */
  ghost function Paired(dirs: seq<Change>, grads: seq<Change>): real
    requires SameSizes(dirs, grads)
  {
    if dirs == [] then
      0.0
    else
      Inner(dirs[0].weights, grads[0].weights) + Inner(dirs[0].biases, grads[0].biases) + Paired(dirs[1..], grads[1..])
  }

  lemma {:induction false} GradientsFit(f: Library, layers: seq<Layer>, dirs: seq<Change>, x: seq<real>, loss: Loss,
                                        t: seq<real>)
    requires Lawful(f) && layers != [] && Chained(layers, |x|) && |t| == Outputs(layers) && Fitting(layers, dirs)
    ensures Fitting(layers, Reverse(f, layers, x, loss, t).layers)
    ensures SameSizes(dirs, Reverse(f, layers, x, loss, t).layers)
  {
    hide Pre, Apply, Activations.Backward, OutputGradient;
    if |layers| > 1 {
      var a := Apply(f, layers[0].activation, Pre(layers[0].dense, x));
      GradientsFit(f, layers[1..], dirs[1..], a, loss, t);
    }
  }

  lemma LastLayer(f: Library, l: Layer, dir: Change, x: Vec, loss: Loss, t: seq<real>)
    requires Lawful(f) && l.dense.Valid() && x.Valid() && |x.v| == l.dense.inputs && dir.Fits(l.dense)
    requires Accepted([l], loss, t)
    ensures var z := Pre(l.dense, x.v);
            var a := Apply(f, l.activation, z);
            var dz := DualPre(l.dense, dir, x);
            DualLoss(f, loss, dz, DualApply(f, l.activation, dz), t)
            == Dual(LossValue(f, loss, z, a, t), Inner(dz.d, OutputGradient(loss, l.activation, z, a, t)))
  {
    var dz := DualPre(l.dense, dir, x);
    PreValues(l.dense, dir, x);
    var da := DualApply(f, l.activation, dz);
    ApplyValues(f, l.activation, dz);
    if loss == Mse {
      MseAdjoint(f, dz, da, t);
      ActivationAdjoint(f, l.activation, dz, LossGradient(Mse, da.v, t));
    } else {
      FusedAdjoint(f, loss, l.activation, dz, t);
    }
    hide DualPre, Pre, Apply, DualApply, Inner, LossValue, DualLoss, Activations.Backward, FusedGradient, LossGradient;
  }

  lemma PreValues(l: Parameters, dir: Change, x: Vec)
    requires l.Valid() && dir.Fits(l) && x.Valid() && |x.v| == l.inputs
    ensures DualPre(l, dir, x).v == Pre(l, x.v)
  {
    forall o | 0 <= o < l.neurons ensures DualPre(l, dir, x).v[o] == Pre(l, x.v)[o] {
      NeuronTangent(l, dir, x, o, l.inputs);
    }
  }

  ghost predicate Adjoint(f: Library, layers: seq<Layer>, dirs: seq<Change>, x: Vec, loss: Loss, t: seq<real>)
    requires Lawful(f) && layers != [] && x.Valid() && Chained(layers, |x.v|) && Fitting(layers, dirs)
    requires |t| == Outputs(layers)
  {
    var grads := Reverse(f, layers, x.v, loss, t);
    && SameSizes(dirs, grads.layers)
    && DualLossOf(f, layers, dirs, x, loss, t)
       == Dual(LossOf(f, layers, x.v, loss, t), Paired(dirs, grads.layers) + Inner(x.d, grads.inputs))
  }

  lemma {:induction false} SingleLayer(f: Library, layers: seq<Layer>, dirs: seq<Change>, x: Vec, loss: Loss,
                                       t: seq<real>)
    requires Lawful(f) && x.Valid() && Chained(layers, |x.v|) && Fitting(layers, dirs) && Accepted(layers, loss, t)
    requires |layers| == 1
    ensures Adjoint(f, layers, dirs, x, loss, t)
  {
    hide Pre, DualPre, Apply, DualApply, OutputGradient, WeightGradient, InputGradient, LossValue, DualLoss, Inner;
    hide TargetsAccepted, OutputAccepted;
    var l, dir := layers[0], dirs[0];
    var z := Pre(l.dense, x.v);
    var a := Apply(f, l.activation, z);
    assert layers == [l] && dirs[1..] == [];
    LastLayer(f, l, dir, x, loss, t);
    DenseAdjoint(l.dense, dir, x, OutputGradient(loss, l.activation, z, a, t));
    GradientsFit(f, layers, dirs, x.v, loss, t);
    var grads := Reverse(f, layers, x.v, loss, t);
    assert grads.layers[1..] == [];
    PairedSplit(dirs, grads.layers);
    assert Paired(dirs[1..], grads.layers[1..]) == 0.0;
  }

  lemma {:induction false} OneMoreLayer(f: Library, layers: seq<Layer>, dirs: seq<Change>, x: Vec, loss: Loss,
                                        t: seq<real>, da: Vec)
    requires Lawful(f) && x.Valid() && Chained(layers, |x.v|) && Fitting(layers, dirs) && Accepted(layers, loss, t)
    requires |layers| > 1
    requires da == DualApply(f, layers[0].activation, DualPre(layers[0].dense, dirs[0], x))
    requires Adjoint(f, layers[1..], dirs[1..], da, loss, t)
    ensures Adjoint(f, layers, dirs, x, loss, t)
  {
    var l, dir := layers[0], dirs[0];
    var z, dz := Pre(l.dense, x.v), DualPre(l.dense, dir, x);
    PreValues(l.dense, dir, x);
    var a := Apply(f, l.activation, z);
    ApplyValues(f, l.activation, dz);
    hide Pre, DualPre, Apply, DualApply, Activations.Backward, OutputGradient, WeightGradient, InputGradient, Inner;
    hide TargetsAccepted, OutputAccepted;
    var rest := Reverse(f, layers[1..], a, loss, t);
    var g := Activations.Backward(l.activation, z, a, rest.inputs);
    ActivationAdjoint(f, l.activation, dz, rest.inputs);
    DenseAdjoint(l.dense, dir, x, g);
    GradientsFit(f, layers, dirs, x.v, loss, t);
    GradientsFit(f, layers[1..], dirs[1..], a, loss, t);
    var own := LayerGradients(l.dense, x.v, g);
    var grads := Reverse(f, layers, x.v, loss, t);
    assert grads == Gradients(own.inputs, own.layers + rest.layers);
    assert grads.layers[1..] == rest.layers && grads.layers[0] == own.layers[0];
    PairedSplit(dirs, grads.layers);
    hide Reverse, Paired;
  }

  lemma PairedSplit(dirs: seq<Change>, grads: seq<Change>)
    requires SameSizes(dirs, grads) && dirs != []
    ensures Paired(dirs, grads)
         == Inner(dirs[0].weights, grads[0].weights) + Inner(dirs[0].biases, grads[0].biases)
          + Paired(dirs[1..], grads[1..])
  {
  }

  /** The reverse pass is the adjoint of the linearised forward pass: for any layers,
      shapes and activations, the directional derivative of the loss along any
      direction of parameters and inputs is the inner product of that direction with
      the computed gradients. */
  lemma {:induction false} ReverseIsAdjoint(f: Library, layers: seq<Layer>, dirs: seq<Change>, x: Vec, loss: Loss,
                                            t: seq<real>)
    requires Lawful(f) && x.Valid() && Chained(layers, |x.v|) && Fitting(layers, dirs) && Accepted(layers, loss, t)
    ensures Adjoint(f, layers, dirs, x, loss, t)
    decreases |layers|
  {
    if |layers| == 1 {
      SingleLayer(f, layers, dirs, x, loss, t);
    } else {
      var da := DualApply(f, layers[0].activation, DualPre(layers[0].dense, dirs[0], x));
      hide DualApply, DualPre, TargetsAccepted, OutputAccepted, Adjoint;
      ReverseIsAdjoint(f, layers[1..], dirs[1..], da, loss, t);
      OneMoreLayer(f, layers, dirs, x, loss, t, da);
    }
  }

  /** Along a direction of the parameters alone. */
  lemma GradientIsDirectionalDerivative(f: Library, layers: seq<Layer>, dirs: seq<Change>, x: seq<real>, loss: Loss,
                                        t: seq<real>)
    requires Lawful(f) && Chained(layers, |x|) && Fitting(layers, dirs) && Accepted(layers, loss, t)
    ensures var grads := Reverse(f, layers, x, loss, t).layers;
            var still := Vec(x, seq(|x|, i => 0.0));
            && SameSizes(dirs, grads)
            && DualLossOf(f, layers, dirs, still, loss, t) == Dual(LossOf(f, layers, x, loss, t), Paired(dirs, grads))
  {
    var zeros := seq(|x|, i => 0.0);
    var still := Vec(x, zeros);
    GradientsFit(f, layers, dirs, x, loss, t);
    ReverseIsAdjoint(f, layers, dirs, still, loss, t);
    var g := Reverse(f, layers, x, loss, t).inputs;
    ZeroDot(g, zeros, |x|);
    DotCommutes(zeros, g, |x|);
    hide Reverse, Paired, DualLossOf, LossOf, Dot;
  }
}
