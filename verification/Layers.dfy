/** The parameters of one layer, as the optimizer and the files see them. */
module Layers {
  datatype Layer<F> = Layer(weights: seq<F>, biases: seq<F>)
}
