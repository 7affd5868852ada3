/** Dense layers over the reals: the forward pass, its lift to dual numbers, and
    the reverse pass as its transpose. */
module Dense {
  import opened Grids
  import opened Calculus

  /** The parameters of one layer, with a row of weights per neuron. */
  datatype Parameters = Parameters(inputs: nat, neurons: nat, weights: seq<real>, biases: seq<real>) {
    predicate Valid() {
      inputs > 0 && neurons > 0 && |weights| == Area(neurons, inputs) && |biases| == neurons
    }
  }

  /** A direction in a layer's parameters, or a gradient with respect to them. */
  datatype Change = Change(weights: seq<real>, biases: seq<real>) {
    predicate Fits(l: Parameters) {
      |weights| == Area(l.neurons, l.inputs) && |biases| == l.neurons
    }
  }

  function WeightRow(weights: seq<real>, l: Parameters, o: nat): (row: seq<real>)
    requires o < l.neurons && |weights| == Area(l.neurons, l.inputs)
    ensures |row| == l.inputs
  {
    AreaGrows(o + 1, l.neurons, l.inputs);
    Row(weights, l.inputs, o)
  }

  /** Bias plus weighted inputs. */
  function Pre(l: Parameters, x: seq<real>): (z: seq<real>)
    requires l.Valid() && |x| == l.inputs
    ensures |z| == l.neurons
  {
    seq(l.neurons, o requires 0 <= o < l.neurons => l.biases[o] + Dot(WeightRow(l.weights, l, o), x, l.inputs))
  }

  /** The accumulation of one neuron in dual numbers, after n inputs. */
  function DualNeuron(l: Parameters, dir: Change, x: Vec, o: nat, n: nat): Dual
    requires l.Valid() && dir.Fits(l) && x.Valid() && |x.v| == l.inputs && o < l.neurons && n <= l.inputs
  {
    if n == 0 then
      Dual(l.biases[o], dir.biases[o])
    else
      Plus(DualNeuron(l, dir, x, o, n - 1),
           Times(Dual(WeightRow(l.weights, l, o)[n - 1], WeightRow(dir.weights, l, o)[n - 1]), x.At(n - 1)))
  }

  function DualPre(l: Parameters, dir: Change, x: Vec): (z: Vec)
    requires l.Valid() && dir.Fits(l) && x.Valid() && |x.v| == l.inputs
    ensures z.Valid() && |z.v| == l.neurons
  {
    VecOf(seq(l.neurons, o requires 0 <= o < l.neurons => DualNeuron(l, dir, x, o, l.inputs)))
  }

  lemma {:induction false} NeuronTangent(l: Parameters, dir: Change, x: Vec, o: nat, n: nat)
    requires l.Valid() && dir.Fits(l) && x.Valid() && |x.v| == l.inputs && o < l.neurons && n <= l.inputs
    ensures var w, dw := WeightRow(l.weights, l, o), WeightRow(dir.weights, l, o);
            DualNeuron(l, dir, x, o, n)
            == Dual(l.biases[o] + Dot(w, x.v, n), dir.biases[o] + (Dot(dw, x.v, n) + Dot(w, x.d, n)))
  {
    hide WeightRow, Mul;
    if n > 0 {
      NeuronTangent(l, dir, x, o, n - 1);
    }
  }

  /** The gradient of one weight row is the output gradient times the inputs. */
  function Scaled(x: seq<real>, g: real): (r: seq<real>)
    ensures |r| == |x| && forall i :: 0 <= i < |x| ==> r[i] == Mul(g, x[i])
  {
    seq(|x|, i requires 0 <= i < |x| => Mul(g, x[i]))
  }

  function WeightGradient(g: seq<real>, x: seq<real>, o: nat): (w: seq<real>)
    requires o <= |g|
    ensures |w| == Area(o, |x|)
  {
    AreaGrows(0, o, |x|);
    if o == 0 then
      []
    else
      AreaGrows(o - 1, o, |x|);
      WeightGradient(g, x, o - 1) + Scaled(x, g[o - 1])
  }

  function ColumnSum(l: Parameters, g: seq<real>, i: nat, o: nat): real
    requires l.Valid() && |g| == l.neurons && i < l.inputs && o <= l.neurons
  {
    if o == 0 then 0.0 else ColumnSum(l, g, i, o - 1) + Mul(WeightRow(l.weights, l, o - 1)[i], g[o - 1])
  }

  /** The input gradient that the first o neurons contribute. */
  function InputGradient(l: Parameters, g: seq<real>, o: nat): (r: seq<real>)
    requires l.Valid() && |g| == l.neurons && o <= l.neurons
    ensures |r| == l.inputs
  {
    seq(l.inputs, i requires 0 <= i < l.inputs => ColumnSum(l, g, i, o))
  }

  lemma WeightGradientRow(g: seq<real>, x: seq<real>, o: nat, neurons: nat)
    requires o < neurons <= |g|
    ensures Area(o, |x|) + |x| <= |WeightGradient(g, x, neurons)|
    ensures WeightGradient(g, x, neurons)[Area(o, |x|)..Area(o, |x|) + |x|] == Scaled(x, g[o])
  {
    AreaGrows(o, neurons, |x|);
    AreaGrows(o + 1, neurons, |x|);
    AreaGrows(neurons - 1, neurons, |x|);
    hide Area, Scaled;
    if o < neurons - 1 {
      WeightGradientRow(g, x, o, neurons - 1);
      AreaGrows(o + 1, neurons - 1, |x|);
    }
  }

  /** The adjoint identity of a dense layer, neuron by neuron. */
  lemma {:induction false} DenseAdjointUpTo(l: Parameters, dir: Change, x: Vec, g: seq<real>, o: nat)
    requires l.Valid() && dir.Fits(l) && x.Valid() && |x.v| == l.inputs && |g| == l.neurons && o <= l.neurons
    ensures Area(o, l.inputs) <= |dir.weights| && Area(o, l.inputs) <= |WeightGradient(g, x.v, l.neurons)|
    ensures Dot(DualPre(l, dir, x).d, g, o)
         == Dot(dir.weights, WeightGradient(g, x.v, l.neurons), Area(o, l.inputs))
          + Dot(dir.biases, g, o) + Dot(x.d, InputGradient(l, g, o), l.inputs)
  {
    AreaGrows(o, l.neurons, l.inputs);
    if o == 0 {
      ZeroDot(x.d, InputGradient(l, g, 0), l.inputs);
    } else {
      hide DualPre, InputGradient, WeightGradient, Area, WeightRow, DualNeuron, Mul;
      DenseAdjointUpTo(l, dir, x, g, o - 1);
      NeuronTerm(l, dir, x, g, o - 1);
    }
  }

  /** What neuron o adds to both sides. */
  lemma NeuronTerm(l: Parameters, dir: Change, x: Vec, g: seq<real>, o: nat)
    requires l.Valid() && dir.Fits(l) && x.Valid() && |x.v| == l.inputs && |g| == l.neurons && o < l.neurons
    ensures Area(o, l.inputs) <= Area(o + 1, l.inputs) <= |dir.weights|
    ensures Area(o + 1, l.inputs) <= |WeightGradient(g, x.v, l.neurons)|
    ensures DualPre(l, dir, x).d[o]
         == dir.biases[o] + (Dot(WeightRow(dir.weights, l, o), x.v, l.inputs)
                             + Dot(WeightRow(l.weights, l, o), x.d, l.inputs))
    ensures Mul(DualPre(l, dir, x).d[o], g[o])
         == (Dot(dir.weights, WeightGradient(g, x.v, l.neurons), Area(o + 1, l.inputs))
             - Dot(dir.weights, WeightGradient(g, x.v, l.neurons), Area(o, l.inputs)))
          + Mul(dir.biases[o], g[o])
          + (Dot(x.d, InputGradient(l, g, o + 1), l.inputs) - Dot(x.d, InputGradient(l, g, o), l.inputs))
  {
    NeuronTangent(l, dir, x, o, l.inputs);
    WeightTerm(l, dir, x, g, o);
    InputTerm(l, x, g, o);
    hide InputGradient, WeightGradient, Area, WeightRow, Dot, Mul;
    var c := g[o];
    var p, q := Dot(WeightRow(dir.weights, l, o), x.v, l.inputs), Dot(WeightRow(l.weights, l, o), x.d, l.inputs);
    Spread(dir.biases[o], p, q, c);
  }

  lemma Spread(b: real, p: real, q: real, c: real)
    ensures Mul(b + (p + q), c) == Mul(c, p) + Mul(b, c) + Mul(c, q)
  {
  }

  lemma WeightTerm(l: Parameters, dir: Change, x: Vec, g: seq<real>, o: nat)
    requires l.Valid() && dir.Fits(l) && x.Valid() && |x.v| == l.inputs && |g| == l.neurons && o < l.neurons
    ensures Area(o, l.inputs) <= Area(o + 1, l.inputs) <= |dir.weights|
    ensures Area(o + 1, l.inputs) <= |WeightGradient(g, x.v, l.neurons)|
    ensures Dot(dir.weights, WeightGradient(g, x.v, l.neurons), Area(o + 1, l.inputs))
         == Dot(dir.weights, WeightGradient(g, x.v, l.neurons), Area(o, l.inputs))
          + Mul(g[o], Dot(WeightRow(dir.weights, l, o), x.v, l.inputs))
  {
    AreaGrows(o, l.neurons, l.inputs);
    AreaGrows(o + 1, l.neurons, l.inputs);
    var w := WeightGradient(g, x.v, l.neurons);
    WeightGradientRow(g, x.v, o, l.neurons);
    var row := WeightRow(dir.weights, l, o);
    assert row == dir.weights[Area(o, l.inputs)..Area(o, l.inputs) + l.inputs];
    DotBlock(dir.weights, w, Area(o, l.inputs), l.inputs);
    hide Area, WeightGradient, WeightRow, Dot, Mul;
    var scaled := Scaled(x.v, g[o]);
    DotCommutes(row, scaled, l.inputs);
    DotScaled(x.v, row, g[o], scaled, l.inputs);
    DotCommutes(x.v, row, l.inputs);
  }

  lemma InputTerm(l: Parameters, x: Vec, g: seq<real>, o: nat)
    requires l.Valid() && x.Valid() && |x.v| == l.inputs && |g| == l.neurons && o < l.neurons
    ensures Dot(x.d, InputGradient(l, g, o + 1), l.inputs)
         == Dot(x.d, InputGradient(l, g, o), l.inputs) + Mul(g[o], Dot(WeightRow(l.weights, l, o), x.d, l.inputs))
  {
    hide WeightRow, Mul;
    var row := WeightRow(l.weights, l, o);
    var before, after := InputGradient(l, g, o), InputGradient(l, g, o + 1);
    forall i | 0 <= i < l.inputs
      ensures after[i] == before[i] + Mul(g[o], row[i])
    {
      MulCommutes(g[o], row[i]);
    }
    hide Dot, ColumnSum, InputGradient;
    DotCombination(x.d, after, before, g[o], row, l.inputs);
    DotCommutes(x.d, row, l.inputs);
  }

  /** Over any direction of inputs, weights and biases, the tangent of a dense
      layer paired with an output gradient is the pairing with the gradients that
      the reverse pass computes. */
  lemma DenseAdjoint(l: Parameters, dir: Change, x: Vec, g: seq<real>)
    requires l.Valid() && dir.Fits(l) && x.Valid() && |x.v| == l.inputs && |g| == l.neurons
    ensures Inner(DualPre(l, dir, x).d, g)
         == Inner(dir.weights, WeightGradient(g, x.v, l.neurons)) + Inner(dir.biases, g)
          + Inner(x.d, InputGradient(l, g, l.neurons))
  {
    DenseAdjointUpTo(l, dir, x, g, l.neurons);
  }
}
