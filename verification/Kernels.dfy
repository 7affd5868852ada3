/** The loops behind the network: every kernel fills caller-owned buffers, and the
    sample gradient runs them forward and backward over the layers. */
module Kernels {
  import opened Options
  import opened Grids
  import opened Calculus
  import opened Dense
  import opened Activations
  import opened Losses
  import opened Backprop

  lemma RowEntry(weights: seq<real>, l: Parameters, o: nat, i: nat)
    requires o < l.neurons && i < l.inputs && |weights| == Area(l.neurons, l.inputs)
    ensures Area(o, l.inputs) + i < |weights|
    ensures weights[Area(o, l.inputs) + i] == WeightRow(weights, l, o)[i]
  {
    AreaGrows(o, l.neurons, l.inputs);
    AreaGrows(o + 1, l.neurons, l.inputs);
  }

  method DenseForward(l: Parameters, inputs: seq<real>, outputs: array<real>) returns (ok: bool)
    modifies outputs
    ensures ok <==> l.Valid() && |inputs| == l.inputs && outputs.Length == l.neurons
    ensures if ok then outputs[..] == Pre(l, inputs) else outputs[..] == old(outputs[..])
  {
    if !l.Valid() || |inputs| != l.inputs || outputs.Length != l.neurons {
      return false;
    }
    hide Area, WeightRow, Mul, Dot;
    for neuron := 0 to l.neurons
      invariant forall o :: 0 <= o < neuron ==> outputs[o] == Pre(l, inputs)[o]
    {
      outputs[neuron] := NeuronSum(l, inputs, neuron);
    }
    ok := true;
    assert outputs[..] == Pre(l, inputs);
  }

  method NeuronSum(l: Parameters, inputs: seq<real>, neuron: nat) returns (sum: real)
    requires l.Valid() && |inputs| == l.inputs && neuron < l.neurons
    ensures sum == l.biases[neuron] + Dot(WeightRow(l.weights, l, neuron), inputs, l.inputs)
  {
    hide Area, WeightRow, Mul;
    sum := l.biases[neuron];
    var offset := Area(neuron, l.inputs);
    for index := 0 to l.inputs
      invariant sum == l.biases[neuron] + Dot(WeightRow(l.weights, l, neuron), inputs, index)
    {
      RowEntry(l.weights, l, neuron, index);
      sum := sum + Mul(l.weights[offset + index], inputs[index]);
    }
  }

  method WeightLoop(l: Parameters, inputs: seq<real>, g: seq<real>, weightGradients: array<real>,
                    biasGradients: array<real>)
    requires l.Valid() && |inputs| == l.inputs && |g| == l.neurons && weightGradients != biasGradients
    requires weightGradients.Length == Area(l.neurons, l.inputs) && biasGradients.Length == l.neurons
    modifies weightGradients, biasGradients
    ensures weightGradients[..] == WeightGradient(g, inputs, l.neurons) && biasGradients[..] == g
  {
    hide Area, Mul;
    AreaStart(l.inputs);
    for neuron := 0 to l.neurons
      invariant Area(neuron, l.inputs) <= weightGradients.Length
      invariant biasGradients[..neuron] == g[..neuron]
      invariant weightGradients[..Area(neuron, l.inputs)] == WeightGradient(g, inputs, neuron)
    {
      RowFits(neuron, l.neurons, l.inputs);
      var offset := Area(neuron, l.inputs);
      biasGradients[neuron] := g[neuron];
      ghost var row := Scaled(inputs, g[neuron]);
      for index := 0 to l.inputs
        invariant biasGradients[..neuron + 1] == g[..neuron + 1]
        invariant weightGradients[..offset] == WeightGradient(g, inputs, neuron)
        invariant weightGradients[offset..offset + index] == row[..index]
      {
        weightGradients[offset + index] := Mul(g[neuron], inputs[index]);
        assert weightGradients[offset..offset + index + 1]
            == weightGradients[offset..offset + index] + [weightGradients[offset + index]];
      }
      assert weightGradients[..offset + l.inputs]
          == weightGradients[..offset] + weightGradients[offset..offset + l.inputs];
    }
    assert weightGradients[..] == weightGradients[..weightGradients.Length];
    assert biasGradients[..] == biasGradients[..l.neurons] && g == g[..l.neurons];
  }

  lemma AreaStart(width: nat)
    ensures Area(0, width) == 0
  {
  }

  lemma RowFits(o: nat, rows: nat, width: nat)
    requires o < rows
    ensures Area(o + 1, width) == Area(o, width) + width <= Area(rows, width)
  {
    AreaGrows(o, rows, width);
    AreaGrows(o + 1, rows, width);
  }

  method InputLoop(l: Parameters, g: seq<real>, inputGradients: array<real>)
    requires l.Valid() && |g| == l.neurons && inputGradients.Length == l.inputs
    modifies inputGradients
    ensures inputGradients[..] == InputGradient(l, g, l.neurons)
  {
    hide ColumnSum;
    for index := 0 to l.inputs
      invariant forall i :: 0 <= i < index ==> inputGradients[i] == ColumnSum(l, g, i, l.neurons)
    {
      inputGradients[index] := ColumnGradient(l, g, index);
    }
    assert inputGradients[..] == InputGradient(l, g, l.neurons);
  }

  method ColumnGradient(l: Parameters, g: seq<real>, index: nat) returns (gradient: real)
    requires l.Valid() && |g| == l.neurons && index < l.inputs
    ensures gradient == ColumnSum(l, g, index, l.neurons)
  {
    hide Area, Mul, WeightRow;
    gradient := 0.0;
    for neuron := 0 to l.neurons
      invariant gradient == ColumnSum(l, g, index, neuron)
    {
      RowEntry(l.weights, l, neuron, index);
      gradient := gradient + Mul(l.weights[Area(neuron, l.inputs) + index], g[neuron]);
    }
  }

  method DenseBackward(l: Parameters, inputs: seq<real>, g: seq<real>, inputGradients: array<real>,
                       weightGradients: array<real>, biasGradients: array<real>) returns (ok: bool)
    requires inputGradients != weightGradients && weightGradients != biasGradients && biasGradients != inputGradients
    modifies inputGradients, weightGradients, biasGradients
    ensures ok <==> l.Valid() && |inputs| == l.inputs == inputGradients.Length && |g| == l.neurons
                    && weightGradients.Length == Area(l.neurons, l.inputs) && biasGradients.Length == l.neurons
    ensures ok ==>
              LayerGradients(l, inputs, g)
              == Gradients(inputGradients[..], [Change(weightGradients[..], biasGradients[..])])
  {
    ok := l.Valid() && |inputs| == l.inputs && inputGradients.Length == l.inputs && |g| == l.neurons
          && weightGradients.Length == |l.weights| && biasGradients.Length == l.neurons;
    if ok {
      WeightLoop(l, inputs, g, weightGradients, biasGradients);
      InputLoop(l, g, inputGradients);
    }
  }

  // ---------- activations ----------

  method Maximum(z: seq<real>) returns (maximum: real)
    requires |z| > 0
    ensures maximum == MaxOf(z, |z|)
  {
    maximum := z[0];
    for index := 1 to |z|
      invariant maximum == MaxOf(z, index)
    {
      if z[index] > maximum {
        maximum := z[index];
      }
    }
  }

  method Exponentials(f: Library, z: seq<real>, maximum: real, outputs: array<real>) returns (sum: real)
    requires 0 < |z| == outputs.Length && maximum == MaxOf(z, |z|)
    modifies outputs
    ensures outputs[..] == Exps(f, z) && sum == SumOf(Exps(f, z), |z|)
  {
    hide MaxOf;
    sum := 0.0;
    ghost var e := Exps(f, z);
    for index := 0 to |z|
      invariant forall i :: 0 <= i < index ==> outputs[i] == e[i]
      invariant sum == SumOf(e, index)
    {
      outputs[index] := f.exp(z[index] - maximum);
      sum := sum + outputs[index];
    }
    assert outputs[..] == e;
  }

  method SoftmaxForward(f: Library, z: seq<real>, outputs: array<real>)
    requires Lawful(f) && 0 < |z| == outputs.Length
    modifies outputs
    ensures outputs[..] == Apply(f, Softmax, z)
  {
    var maximum := Maximum(z);
    var sum := Exponentials(f, z, maximum, outputs);
    SumPositive(f, z, |z|);
    hide Exps, Div, SumOf, MaxOf;
    ghost var e, p := Exps(f, z), Probabilities(f, z);
    assert forall i :: 0 <= i < |z| ==> outputs[i] == outputs[..][i] == e[i];
    for index := 0 to |z|
      invariant forall i :: 0 <= i < index ==> outputs[i] == p[i]
      invariant forall i :: index <= i < |z| ==> outputs[i] == e[i]
    {
      outputs[index] := Div(outputs[index], sum);
    }
    assert outputs[..] == p;
  }

  method ActivationForward(f: Library, act: Activation, z: seq<real>, outputs: array<real>) returns (ok: bool)
    requires Lawful(f)
    modifies outputs
    ensures ok <==> 0 < |z| == outputs.Length
    ensures ok ==> outputs[..] == Apply(f, act, z)
  {
    if |z| == 0 || |z| != outputs.Length {
      return false;
    }
    ok := true;
    if act == Softmax {
      SoftmaxForward(f, z, outputs);
      return;
    }
    hide ApplyScalar;
    for index := 0 to |z|
      invariant forall i :: 0 <= i < index ==> outputs[i] == ApplyScalar(f, act, z[i])
    {
      outputs[index] := ApplyScalar(f, act, z[index]);
    }
    assert outputs[..] == Apply(f, act, z);
  }

  method ActivationBackward(act: Activation, z: seq<real>, a: seq<real>, g: seq<real>, inputGradients: array<real>)
    returns (ok: bool)
    modifies inputGradients
    ensures ok <==> 0 < |z| == |a| == |g| == inputGradients.Length
    ensures ok ==> inputGradients[..] == Activations.Backward(act, z, a, g)
  {
    ok := 0 < |z| == |a| == |g| == inputGradients.Length;
    if !ok {
      return;
    }
    if act == Softmax {
      SoftmaxBackward(z, a, g, inputGradients);
      return;
    }
    hide Mul, Derivative;
    for index := 0 to |z|
      invariant forall i :: 0 <= i < index ==> inputGradients[i] == Mul(g[i], Derivative(act, z[i], a[i]))
    {
      inputGradients[index] := Mul(g[index], Derivative(act, z[index], a[index]));
    }
    assert inputGradients[..] == Activations.Backward(act, z, a, g);
  }

  method SoftmaxBackward(z: seq<real>, a: seq<real>, g: seq<real>, inputGradients: array<real>)
    requires |z| == |a| == |g| == inputGradients.Length
    modifies inputGradients
    ensures inputGradients[..] == Activations.Backward(Softmax, z, a, g)
  {
    hide Mul;
    var dotProduct := 0.0;
    for index := 0 to |z|
      invariant dotProduct == Dot(g, a, index)
    {
      dotProduct := dotProduct + Mul(g[index], a[index]);
    }
    for index := 0 to |z|
      invariant forall i :: 0 <= i < index ==> inputGradients[i] == Mul(a[i], g[i] - dotProduct)
    {
      inputGradients[index] := Mul(a[index], g[index] - dotProduct);
    }
    assert inputGradients[..] == Activations.Backward(Softmax, z, a, g);
  }

  // ---------- losses ----------

  method SquaredLoss(a: seq<real>, t: seq<real>) returns (sum: real)
    requires |a| == |t|
    ensures sum == SquaredSum(a, t, |t|)
  {
    hide Mul;
    sum := 0.0;
    for index := 0 to |t|
      invariant sum == SquaredSum(a, t, index)
    {
      var difference := a[index] - t[index];
      sum := sum + Mul(difference, difference);
    }
  }

  method BinaryLoss(f: Library, z: seq<real>, t: seq<real>) returns (sum: real)
    requires Lawful(f) && |z| == |t|
    ensures sum == BinarySum(f, z, t, |t|)
  {
    hide Mul;
    sum := 0.0;
    for index := 0 to |t|
      invariant sum == BinarySum(f, z, t, index)
    {
      var logit := z[index];
      var positive := if logit >= 0.0 then logit else 0.0;
      var magnitude := if logit >= 0.0 then logit else -logit;
      sum := sum + (positive - Mul(logit, t[index]) + f.log(1.0 + f.exp(-magnitude)));
    }
  }

  method CategoricalLoss(f: Library, z: seq<real>, t: seq<real>) returns (value: real)
    requires Lawful(f) && 0 < |z| == |t|
    ensures value == CategoricalValue(f, z, t)
  {
    var maximum, selected := z[0], 0.0;
    for index := 0 to |t|
      invariant maximum == if index == 0 then z[0] else MaxOf(z, index)
      invariant selected == match Selected(t, index) case None => 0.0 case Some(k) => SelectedEntry(z, t, k)
    {
      if z[index] > maximum {
        maximum := z[index];
      }
      if t[index] == 1.0 {
        selected := z[index];
      }
    }
    var sum := 0.0;
    for index := 0 to |z|
      invariant sum == SumOf(Exps(f, z), index)
    {
      sum := sum + f.exp(z[index] - maximum);
    }
    SumPositive(f, z, |z|);
    value := maximum + f.log(sum) - selected;
  }

  method EvaluateLoss(f: Library, loss: Loss, z: seq<real>, a: seq<real>, t: seq<real>) returns (value: real)
    requires Lawful(f) && 0 < |z| == |a| == |t|
    ensures value == LossValue(f, loss, z, a, t)
  {
    match loss {
      case Mse =>
        var sum := SquaredLoss(a, t);
        value := Div(sum, |t| as real);
      case BinaryCrossEntropy =>
        var sum := BinaryLoss(f, z, t);
        value := Div(sum, |t| as real);
      case CategoricalCrossEntropy =>
        value := CategoricalLoss(f, z, t);
    }
  }

  /** The loss gradient, entry by entry; the first singular entry is an error. */
  method LossBackward(loss: Loss, a: seq<real>, t: seq<real>, gradient: array<real>) returns (ok: bool)
    requires 0 < |a| == |t| == gradient.Length
    modifies gradient
    ensures ok <==> Slopes(loss, a, t)
    ensures ok ==> gradient[..] == LossGradient(loss, a, t)
  {
    hide LossSlope;
    for index := 0 to |a|
      invariant forall i :: 0 <= i < index ==>
                  LossSlope(loss, a[i], t[i], |a|).Some? && gradient[i] == LossSlope(loss, a[i], t[i], |a|).value
    {
      var slope := LossSlope(loss, a[index], t[index], |a|);
      if slope.None? {
        return false;
      }
      gradient[index] := slope.value;
    }
    ok := true;
    assert gradient[..] == LossGradient(loss, a, t);
  }

  method FusedBackward(loss: Loss, a: seq<real>, t: seq<real>, gradient: array<real>)
    requires loss != Mse && 0 < |a| == |t| == gradient.Length
    modifies gradient
    ensures gradient[..] == FusedGradient(loss, a, t)
  {
    hide Mul, Div;
    var factor := if loss == BinaryCrossEntropy then Div(1.0, |a| as real) else 1.0;
    for index := 0 to |a|
      invariant forall i :: 0 <= i < index ==> gradient[i] == Mul(factor, a[i] - t[i])
    {
      gradient[index] := Mul(factor, a[index] - t[index]);
    }
    assert gradient[..] == FusedGradient(loss, a, t);
  }

  // ---------- one sample ----------

  /** The input of layer i, given all activations. */
  function InputOf(x: seq<real>, activations: seq<seq<real>>, i: nat): seq<real>
    requires i <= |activations|
  {
    if i == 0 then x else activations[i - 1]
  }

  /** Buffers that follow the first n layers. */
  ghost predicate Traced(f: Library, layers: seq<Layer>, x: seq<real>, pre: seq<seq<real>>, act: seq<seq<real>>, n: nat)
    requires Lawful(f) && n <= |layers|
  {
    && |pre| == |act| == n
    && forall i :: 0 <= i < n ==> TracedAt(f, layers, x, pre, act, i)
  }

  ghost predicate TracedAt(f: Library, layers: seq<Layer>, x: seq<real>, pre: seq<seq<real>>, act: seq<seq<real>>,
                           i: nat)
    requires Lawful(f) && i < |layers| && i < |pre| && i < |act|
  {
    && layers[i].dense.Valid() && |InputOf(x, act, i)| == layers[i].dense.inputs
    && pre[i] == Pre(layers[i].dense, InputOf(x, act, i))
    && act[i] == Apply(f, layers[i].activation, pre[i])
  }

  lemma {:induction false} TraceGrows(f: Library, layers: seq<Layer>, x: seq<real>, pre: seq<seq<real>>,
                                      act: seq<seq<real>>, n: nat, values: seq<real>)
    requires Lawful(f) && n < |layers| && Traced(f, layers, x, pre, act, n) && values == InputOf(x, act, n)
    requires layers[n].dense.Valid() && |values| == layers[n].dense.inputs
    ensures var z := Pre(layers[n].dense, values);
            Traced(f, layers, x, pre + [z], act + [Apply(f, layers[n].activation, z)], n + 1)
  {
    hide Pre, Apply;
    var z := Pre(layers[n].dense, values);
    var p, q := pre + [z], act + [Apply(f, layers[n].activation, z)];
    forall i | 0 <= i < n + 1 ensures TracedAt(f, layers, x, p, q, i) {
      if i < n {
        assert TracedAt(f, layers, x, pre, act, i);
      }
    }
  }

  /** What the reverse pass may assume about layer i. */
  lemma {:induction false} SuffixIsChained(f: Library, layers: seq<Layer>, x: seq<real>, pre: seq<seq<real>>,
                                           act: seq<seq<real>>, i: nat)
    requires Lawful(f) && Chained(layers, |x|) && Traced(f, layers, x, pre, act, |layers|) && i < |layers|
    ensures Chained(layers[i..], |InputOf(x, act, i)|) && TracedAt(f, layers, x, pre, act, i)
    ensures layers[i..] != [] && Outputs(layers[i..]) == Outputs(layers)
  {
    hide Pre, Apply;
    if i == 0 {
      assert layers[0..] == layers;
    } else {
      SuffixIsChained(f, layers, x, pre, act, i - 1);
      assert layers[i - 1..][1..] == layers[i..];
    }
  }

  lemma {:induction false} LossAtTheEnd(f: Library, layers: seq<Layer>, x: seq<real>, pre: seq<seq<real>>,
                                        act: seq<seq<real>>, loss: Loss, t: seq<real>, i: nat)
    requires Lawful(f) && Chained(layers, |x|) && Traced(f, layers, x, pre, act, |layers|) && i < |layers|
    requires |t| == Outputs(layers)
    ensures Chained(layers[i..], |InputOf(x, act, i)|) && Outputs(layers[i..]) == |t|
    ensures 0 < |pre[|layers| - 1]| == |act[|layers| - 1]| == |t|
    ensures LossOf(f, layers[i..], InputOf(x, act, i), loss, t)
         == LossValue(f, loss, pre[|layers| - 1], act[|layers| - 1], t)
    decreases |layers| - i
  {
    hide Pre, Apply, LossValue;
    SuffixIsChained(f, layers, x, pre, act, i);
    SuffixIsChained(f, layers, x, pre, act, |layers| - 1);
    if i < |layers| - 1 {
      LossAtTheEnd(f, layers, x, pre, act, loss, t, i + 1);
      assert layers[i..][1..] == layers[i + 1..];
    }
  }

  /** The reverse pass over the layers from i on, read off the buffers. */
  lemma {:induction false} ReverseFromBuffers(f: Library, layers: seq<Layer>, x: seq<real>, pre: seq<seq<real>>,
                                              act: seq<seq<real>>, loss: Loss, t: seq<real>, i: nat)
    requires Lawful(f) && Chained(layers, |x|) && Traced(f, layers, x, pre, act, |layers|) && i < |layers|
    requires |t| == Outputs(layers)
    ensures TracedAt(f, layers, x, pre, act, i) && Chained(layers[i..], |InputOf(x, act, i)|)
    ensures Outputs(layers[i..]) == |t|
    ensures var l, z, a, input := layers[i], pre[i], act[i], InputOf(x, act, i);
            var r := Reverse(f, layers[i..], input, loss, t);
            if i == |layers| - 1 then
              |t| == |z| && r == LayerGradients(l.dense, input, OutputGradient(loss, l.activation, z, a, t))
            else
              && Chained(layers[i + 1..], |a|) && Outputs(layers[i + 1..]) == |t|
              && var rest := Reverse(f, layers[i + 1..], a, loss, t);
                 var own := LayerGradients(l.dense, input, Activations.Backward(l.activation, z, a, rest.inputs));
                 r == Gradients(own.inputs, own.layers + rest.layers)
  {
    hide Pre, Apply, OutputGradient, Activations.Backward, LayerGradients;
    SuffixIsChained(f, layers, x, pre, act, i);
    if i < |layers| - 1 {
      SuffixIsChained(f, layers, x, pre, act, i + 1);
      assert layers[i..][1..] == layers[i + 1..];
    }
  }

  /** The buffers of one worker. */
  class Workspace {
    var preActivations: seq<seq<real>>
    var activations: seq<seq<real>>

    constructor ()
    {
      preActivations, activations := [], [];
    }

    /** Runs one more layer and keeps what the backward pass needs. */
    method Push(f: Library, l: Layer, values: seq<real>) returns (next: seq<real>)
      requires Lawful(f) && l.dense.Valid() && |values| == l.dense.inputs
      modifies this
      ensures next == Apply(f, l.activation, Pre(l.dense, values))
      ensures preActivations == old(preActivations) + [Pre(l.dense, values)]
      ensures activations == old(activations) + [next]
    {
      hide Pre, Apply;
      var z := new real[l.dense.neurons];
      var ok := DenseForward(l.dense, values, z);
      var a := new real[l.dense.neurons];
      ok := ActivationForward(f, l.activation, z[..], a);
      next := a[..];
      preActivations, activations := preActivations + [z[..]], activations + [next];
    }

    method Forward(f: Library, layers: seq<Layer>, x: seq<real>)
      requires Lawful(f) && Chained(layers, |x|)
      modifies this
      ensures Traced(f, layers, x, preActivations, activations, |layers|)
    {
      hide Pre, Apply, TracedAt;
      preActivations, activations := [], [];
      var values := x;
      assert layers[0..] == layers;
      for i := 0 to |layers|
        invariant Traced(f, layers, x, preActivations, activations, i)
        invariant values == InputOf(x, activations, i) && Chained(layers[i..], |values|)
      {
        assert layers[i..][0] == layers[i] && layers[i..][1..] == layers[i + 1..];
        TraceGrows(f, layers, x, preActivations, activations, i, values);
        values := Push(f, layers[i], values);
      }
    }

    /** The gradient of layer i's pre-activations. */
    method PreGradient(l: Layer, z: seq<real>, a: seq<real>, loss: Loss, t: seq<real>, last: bool, above: seq<real>)
      returns (g: seq<real>)
      requires 0 < |z| == |a| && (if last then |t| == |z| else |above| == |z|)
      ensures g == if last then OutputGradient(loss, l.activation, z, a, t)
                   else Activations.Backward(l.activation, z, a, above)
    {
      hide Activations.Backward, LossGradient, FusedGradient;
      var result := new real[|z|];
      var fused := loss != Mse;
      if last && fused {
        FusedBackward(loss, a, t, result);
        return result[..];
      }
      var gradient := above;
      if last {
        MseSlopes(a, t);
        var ok := LossBackward(Mse, a, t, result);
        gradient := result[..];
      }
      var activated := new real[|z|];
      var ok := ActivationBackward(l.activation, z, a, gradient, activated);
      g := activated[..];
    }

    method LayerBackward(l: Parameters, input: seq<real>, g: seq<real>) returns (r: Gradients)
      requires l.Valid() && |input| == l.inputs && |g| == l.neurons
      ensures r == LayerGradients(l, input, g)
    {
      hide LayerGradients;
      var inputs := new real[l.inputs];
      var weights := new real[|l.weights|];
      var biases := new real[l.neurons];
      var ok := DenseBackward(l, input, g, inputs, weights, biases);
      r := Gradients(inputs[..], [Change(weights[..], biases[..])]);
    }

    /** Loss and gradients of one sample; refused when the loss does not suit the
        output layer or the targets. */
    method SampleGradient(f: Library, layers: seq<Layer>, loss: Loss, x: seq<real>, t: seq<real>)
      returns (ok: bool, lossValue: real, gradients: Gradients)
      requires Lawful(f) && layers != [] && Chained(layers, |x|)
      modifies this
      ensures ok <==> Accepted(layers, loss, t)
      ensures ok ==> lossValue == LossOf(f, layers, x, loss, t) && gradients == Reverse(f, layers, x, loss, t)
    {
      lossValue, gradients := 0.0, Gradients([], []);
      ok := |t| == Outputs(layers) && OutputAccepted(loss, layers[|layers| - 1].activation, |t|)
            && TargetsAccepted(loss, t);
      if !ok {
        return;
      }
      hide LossValue, OutputAccepted, TargetsAccepted, TracedAt, Reverse, LossOf, Chained;
      Forward(f, layers, x);
      var n := |layers|;
      LossAtTheEnd(f, layers, x, preActivations, activations, loss, t, 0);
      assert layers[0..] == layers;
      lossValue := EvaluateLoss(f, loss, preActivations[n - 1], activations[n - 1], t);
      gradients := BackwardLayers(f, layers, loss, x, t);
    }

    method BackwardLayers(f: Library, layers: seq<Layer>, loss: Loss, x: seq<real>, t: seq<real>)
      returns (gradients: Gradients)
      requires Lawful(f) && layers != [] && Chained(layers, |x|) && |t| == Outputs(layers)
      requires Traced(f, layers, x, preActivations, activations, |layers|)
      ensures gradients == Reverse(f, layers, x, loss, t)
    {
      hide TracedAt, Reverse;
      var n := |layers|;
      var pre, act := preActivations, activations;
      gradients := OneLayer(f, layers, loss, x, t, n - 1, pre, act, Gradients([], []));
      var i := n - 1;
      while i > 0
        invariant 0 <= i < n && Chained(layers[i..], |InputOf(x, act, i)|) && Outputs(layers[i..]) == |t|
        invariant gradients == Reverse(f, layers[i..], InputOf(x, act, i), loss, t)
      {
        i := i - 1;
        gradients := OneLayer(f, layers, loss, x, t, i, pre, act, gradients);
      }
      assert layers[0..] == layers;
    }

    /** One turn of the backward loop. */
    method OneLayer(f: Library, layers: seq<Layer>, loss: Loss, x: seq<real>, t: seq<real>, i: nat,
                    pre: seq<seq<real>>, act: seq<seq<real>>, above: Gradients) returns (r: Gradients)
      requires Lawful(f) && Chained(layers, |x|) && Traced(f, layers, x, pre, act, |layers|) && i < |layers|
      requires |t| == Outputs(layers)
      requires i < |layers| - 1 ==>
                 && Chained(layers[i + 1..], |act[i]|) && Outputs(layers[i + 1..]) == |t|
                 && above == Reverse(f, layers[i + 1..], act[i], loss, t)
      ensures Chained(layers[i..], |InputOf(x, act, i)|) && Outputs(layers[i..]) == |t|
      ensures r == Reverse(f, layers[i..], InputOf(x, act, i), loss, t)
    {
      hide Pre, Apply, OutputGradient, Activations.Backward, LayerGradients, Reverse;
      ReverseFromBuffers(f, layers, x, pre, act, loss, t, i);
      var last := i == |layers| - 1;
      var g := PreGradient(layers[i], pre[i], act[i], loss, t, last, above.inputs);
      var own := LayerBackward(layers[i].dense, InputOf(x, act, i), g);
      r := if last then own else Gradients(own.inputs, own.layers + above.layers);
    }
  }
}
