/** The parameter bookkeeping of `Neuron`, `Layer` and `MLP`. A parameter is
    any value `V` (a `Value` in the program); the random initial values the
    constructors draw are supplied instead as one list `init`, consumed in
    the order the constructors create them. */
module Network {

  datatype Neuron<V> = Neuron(w: seq<V>, b: V)

  datatype Layer<V> = Layer(neurons: seq<Neuron<V>>)

  datatype Mlp<V> = Mlp(layers: seq<Layer<V>>)

  /** `Neuron.parameters()`: the weights, then the bias. */
  function NeuronParameters<V>(n: Neuron<V>): (ps: seq<V>)
    ensures |ps| == |n.w| + 1
    ensures forall j :: 0 <= j < |n.w| ==> ps[j] == n.w[j]
    ensures ps[|n.w|] == n.b
  {
    n.w + [n.b]
  }

  /** `Layer.parameters()`: the neurons' lists concatenated, left to right. */
  function LayerParameters<V>(neurons: seq<Neuron<V>>): seq<V> {
    if neurons == [] then []
    else LayerParameters(neurons[..|neurons| - 1]) + NeuronParameters(neurons[|neurons| - 1])
  }

  /** `MLP.parameters()`: the layers' lists concatenated, left to right. */
  function MlpParameters<V>(layers: seq<Layer<V>>): seq<V> {
    if layers == [] then []
    else MlpParameters(layers[..|layers| - 1]) + LayerParameters(layers[|layers| - 1].neurons)
  }

  /** Every neuron of the list has `nin` weights. */
  ghost predicate Shaped<V>(neurons: seq<Neuron<V>>, nin: nat) {
    forall j :: 0 <= j < |neurons| ==> |neurons[j].w| == nin
  }

  /** A layer of `nout` neurons with `nin` inputs each has `nout * (nin + 1)`
      parameters. */
  lemma {:induction false} LayerParameterCount<V>(neurons: seq<Neuron<V>>, nin: nat)
    requires Shaped(neurons, nin)
    ensures |LayerParameters(neurons)| == |neurons| * (nin + 1)
    decreases |neurons|
  {
    if neurons != [] {
      var m := |neurons| - 1;
      LayerParameterCount(neurons[..m], nin);
      assert |LayerParameters(neurons)| == m * (nin + 1) + (nin + 1);
    }
  }

  /** Appending a neuron appends its parameters: the first neurons'
      parameters are a prefix of the layer's. */
  lemma LayerParametersAppend<V>(neurons: seq<Neuron<V>>, n: Neuron<V>)
    ensures LayerParameters(neurons + [n]) == LayerParameters(neurons) + NeuronParameters(n)
  {
    assert (neurons + [n])[..|neurons|] == neurons;
  }

  /** The left fold concatenates in order: the parameters of two runs of
      neurons side by side are the two lists one after the other. */
  lemma {:induction false} LayerParametersConcat<V>(n1: seq<Neuron<V>>, n2: seq<Neuron<V>>)
    ensures LayerParameters(n1 + n2) == LayerParameters(n1) + LayerParameters(n2)
    decreases |n2|
  {
    if n2 == [] {
      assert n1 + n2 == n1;
    } else {
      var m := |n2| - 1;
      var front, last := n2[..m], n2[m];
      assert n2 == front + [last];
      assert n1 + n2 == (n1 + front) + [last];
      LayerParametersAppend(n1 + front, last);
      LayerParametersAppend(front, last);
      var a, b, c := LayerParameters(n1), LayerParameters(front), NeuronParameters(last);
      assert (a + b) + c == a + (b + c);
      LayerParametersConcat(n1, front);
    }
  }

  /** The same for the layers of a network. */
  lemma {:induction false} MlpParametersConcat<V>(l1: seq<Layer<V>>, l2: seq<Layer<V>>)
    ensures MlpParameters(l1 + l2) == MlpParameters(l1) + MlpParameters(l2)
    decreases |l2|
  {
    if l2 == [] {
      assert l1 + l2 == l1;
    } else {
      var m := |l2| - 1;
      var front, last := l2[..m], l2[m];
      assert l2 == front + [last];
      assert l1 + l2 == (l1 + front) + [last];
      MlpParametersAppend(l1 + front, last);
      MlpParametersAppend(front, last);
      MlpParametersConcat(l1, front);
    }
  }

  /** `new Neuron(nin)`, with the `nin` weights and then the bias taken from
      `init` in the order they are created. */
  function NewNeuron<V>(nin: nat, init: seq<V>): (n: Neuron<V>)
    requires |init| == nin + 1
    ensures |n.w| == nin
    ensures NeuronParameters(n) == init
  {
    Neuron(init[..nin], init[nin])
  }

  /** `new Layer(nin, nout)`: `nout` neurons, each taking the next `nin + 1`
      values of `init`. */
  function NewLayer<V>(nin: nat, nout: nat, init: seq<V>): (l: Layer<V>)
    requires |init| == nout * (nin + 1)
    ensures |l.neurons| == nout && Shaped(l.neurons, nin)
    ensures LayerParameters(l.neurons) == init
  {
    if nout == 0 then Layer([])
    else
      var k := (nout - 1) * (nin + 1);
      assert k + (nin + 1) == nout * (nin + 1);
      var front := NewLayer(nin, nout - 1, init[..k]);
      var last := NewNeuron(nin, init[k..]);
      var l := Layer(front.neurons + [last]);
      assert l.neurons[..nout - 1] == front.neurons;
      assert init[..k] + init[k..] == init;
      l
  }

  /** `sz = [nin, ...nouts]`. */
  function Sizes(nin: nat, nouts: seq<nat>): (sz: seq<nat>)
    ensures |sz| == |nouts| + 1 && sz[0] == nin
    ensures forall i :: 0 <= i < |nouts| ==> sz[i + 1] == nouts[i]
  {
    [nin] + nouts
  }

  /** How many parameters the layers between consecutive sizes of `sz` hold
      together. */
  function ParameterCount(sz: seq<nat>): nat
    requires |sz| > 0
  {
    if |sz| == 1 then 0
    else ParameterCount(sz[..|sz| - 1]) + sz[|sz| - 1] * (sz[|sz| - 2] + 1)
  }

  /** Layer i reads `sz[i]` inputs and has `sz[i + 1]` neurons. */
  ghost predicate Sized<V>(layers: seq<Layer<V>>, sz: seq<nat>) {
    && |sz| == |layers| + 1
    && forall i :: 0 <= i < |layers| ==>
         |layers[i].neurons| == sz[i + 1] && Shaped(layers[i].neurons, sz[i])
  }

  lemma SizedAppend<V>(front: seq<Layer<V>>, last: Layer<V>, sz: seq<nat>)
    requires |sz| >= 2 && Sized(front, sz[..|sz| - 1])
    requires |last.neurons| == sz[|sz| - 1] && Shaped(last.neurons, sz[|sz| - 2])
    ensures Sized(front + [last], sz)
  {
  }

  lemma MlpParametersAppend<V>(front: seq<Layer<V>>, last: Layer<V>)
    ensures MlpParameters(front + [last]) == MlpParameters(front) + LayerParameters(last.neurons)
  {
    assert (front + [last])[..|front|] == front;
  }

  /** The layers of `new MLP(nin, nouts)` from sizes `sz`, each layer taking
      its parameters from `init` after those of the layers before it. */
  function LayersFrom<V>(sz: seq<nat>, init: seq<V>): (layers: seq<Layer<V>>)
    requires |sz| > 0 && |init| == ParameterCount(sz)
    ensures Sized(layers, sz)
    ensures MlpParameters(layers) == init
  {
    if |sz| == 1 then []
    else
      var m := |sz| - 1;
      var k := ParameterCount(sz[..m]);
      assert |init| == k + sz[m] * (sz[m - 1] + 1);
      assert init[..k] + init[k..] == init;
      var front := LayersFrom(sz[..m], init[..k]);
      var last := NewLayer(sz[m - 1], sz[m], init[k..]);
      MlpParametersAppend(front, last);
      SizedAppend(front, last, sz);
      front + [last]
  }

  /** `new MLP(nin, nouts)`: one layer per entry of `nouts`, layer i from
      `sz[i]` inputs to `sz[i + 1]` outputs, and `parameters()` hands back
      the supplied initial values in order. */
  function NewMlp<V>(nin: nat, nouts: seq<nat>, init: seq<V>): (m: Mlp<V>)
    requires |init| == ParameterCount(Sizes(nin, nouts))
    ensures |m.layers| == |nouts|
    ensures forall i :: 0 <= i < |nouts| ==>
      |m.layers[i].neurons| == nouts[i] && Shaped(m.layers[i].neurons, Sizes(nin, nouts)[i])
    ensures MlpParameters(m.layers) == init
  {
    Mlp(LayersFrom(Sizes(nin, nouts), init))
  }

  /** The number of parameters `MLP.parameters()` returns is fixed by the
      sizes alone. */
  lemma {:induction false} MlpParameterCount<V>(layers: seq<Layer<V>>, sz: seq<nat>)
    requires Sized(layers, sz)
    ensures |MlpParameters(layers)| == ParameterCount(sz)
    decreases |layers|
  {
    if layers != [] {
      var m := |layers| - 1;
      assert sz[..m + 1] == sz[..|sz| - 1];
      SizedPrefix(layers, sz);
      MlpParameterCount(layers[..m], sz[..m + 1]);
      LayerParameterCount(layers[m].neurons, sz[m]);
    }
  }

  lemma SizedPrefix<V>(layers: seq<Layer<V>>, sz: seq<nat>)
    requires Sized(layers, sz) && |layers| > 0
    ensures Sized(layers[..|layers| - 1], sz[..|layers|])
  {
  }
}
