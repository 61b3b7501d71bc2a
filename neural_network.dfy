/** The feed-forward network (crate `neural-network`): neurons, layers, the
    network, forward propagation with ReLU, random construction, and the flat
    serialisation `weights` / `from_weights` that turns a network into a
    chromosome and back.

    `f32` arithmetic is modelled over `real`. */
module NeuralNetwork {
  import opened Random

  /** Why `from_weights` rejects a flat weight stream. */
  datatype Error = NotEnoughWeights | TooManyWeights

  datatype Result<T> = Ok(value: T) | Err(error: Error)

  /** The size of one layer of a topology. */
  datatype LayerTopology = LayerTopology(neurons: nat)

  /** The sum of `xs[i] * ws[i]`, as the zip/map/sum in `Neuron::propagate`. */
  function Dot(xs: seq<real>, ws: seq<real>): real
    requires |xs| == |ws|
    decreases |xs|
  {
    if |xs| == 0 then 0.0 else xs[0] * ws[0] + Dot(xs[1..], ws[1..])
  }

  /** `x.max(0.0)`. */
  function Relu(x: real): real
  {
    if x > 0.0 then x else 0.0
  }

  /** `gen_range(-1.0..=1.0)` drawn `n` times in a row. */
  function RandomValues(rng: Rng, n: nat): (r: (seq<real>, Rng))
    ensures |r.0| == n
    ensures forall i :: 0 <= i < n ==> -1.0 <= r.0[i] <= 1.0
    ensures r.1 == rng.Skip(n)
    decreases n
  {
    if n == 0 then ([], rng)
    else
      var (x, rng1) := GenRange(rng, -1.0, 1.0);
      var (xs, rng2) := RandomValues(rng1, n - 1);
      ([x] + xs, rng2)
  }

  /** Value `i` of `RandomValues` is the `i`-th draw, scaled to [-1, 1]: the
      values come out in the order they are drawn. */
  lemma {:induction false} RandomValuesAt(rng: Rng, n: nat, i: nat)
    requires i < n
    ensures RandomValues(rng, n).0[i] == Scale(-1.0, 1.0, rng.Peek(i))
    decreases n
  {
    if i > 0 {
      RandomValuesAt(rng.Skip(1), n - 1, i - 1);
      assert rng.Skip(1).Peek(i - 1) == rng.Peek(i);
    }
  }

  datatype Neuron = Neuron(bias: real, weights: seq<real>) {

    /** `Neuron::propagate`: ReLU of the bias plus the weighted input sum. */
    function Propagate(inputs: seq<real>): (r: real)
      requires |inputs| == |weights|
      ensures r >= 0.0
      ensures bias + Dot(inputs, weights) >= 0.0 ==> r == bias + Dot(inputs, weights)
      ensures bias + Dot(inputs, weights) < 0.0 ==> r == 0.0
    {
      Relu(bias + Dot(inputs, weights))
    }

    /** Bias and every weight lie in [-1, 1]. */
    predicate Bounded()
    {
      && -1.0 <= bias <= 1.0
      && forall i :: 0 <= i < |weights| ==> -1.0 <= weights[i] <= 1.0
    }

    /** This neuron's part of `Network::weights`: the bias, then the weights. */
    function Flat(): seq<real>
    {
      [bias] + weights
    }

    /** `Neuron::random`: the bias is drawn first, then `inputSize` weights. */
    static function Random(rng: Rng, inputSize: nat): (r: (Neuron, Rng))
      ensures |r.0.weights| == inputSize
      ensures r.0.Bounded()
      ensures r.0.Flat() == RandomValues(rng, 1 + inputSize).0
      ensures r.1 == rng.Skip(1 + inputSize)
    {
      var (bias, rng1) := GenRange(rng, -1.0, 1.0);
      var (weights, rng2) := RandomValues(rng1, inputSize);
      (Neuron(bias, weights), rng2)
    }

    /** `Neuron::from_weights`: consumes the bias, then `inputSize` weights,
        and hands back the rest of the stream. It fails only when the stream
        runs out; otherwise the neuron's own flat values followed by the rest
        are the stream it was given. */
    static function FromWeights(inputSize: nat, ws: seq<real>): (r: Result<(Neuron, seq<real>)>)
      ensures r.Ok? <==> |ws| >= 1 + inputSize
      ensures r.Err? ==> r.error == NotEnoughWeights
      ensures r.Ok? ==> |r.value.0.weights| == inputSize && r.value.0.Flat() + r.value.1 == ws
    {
      if |ws| < 1 + inputSize then Err(NotEnoughWeights)
      else
        var n := Neuron(ws[0], ws[1..1 + inputSize]);
        assert n.Flat() + ws[1 + inputSize..] == ws;
        Ok((n, ws[1 + inputSize..]))
    }
  }

  /** The flat weights of a sequence of neurons, neuron by neuron. */
  function FlatNeurons(ns: seq<Neuron>): seq<real>
    decreases |ns|
  {
    if |ns| == 0 then [] else ns[0].Flat() + FlatNeurons(ns[1..])
  }

  /** The number of values `from_weights` consumes for one layer: one bias
      and `inputSize` weights for each of `outputSize` neurons. */
  function LayerWeightCount(inputSize: nat, outputSize: nat): nat
    decreases outputSize
  {
    if outputSize == 0 then 0 else (1 + inputSize) + LayerWeightCount(inputSize, outputSize - 1)
  }

  /** One layer takes (1 + inputSize) * outputSize values. */
  lemma {:induction false} LayerWeightCountProduct(inputSize: nat, outputSize: nat)
    ensures LayerWeightCount(inputSize, outputSize) == (1 + inputSize) * outputSize
    decreases outputSize
  {
    if outputSize > 0 {
      LayerWeightCountProduct(inputSize, outputSize - 1);
      assert (1 + inputSize) * outputSize == (1 + inputSize) + (1 + inputSize) * (outputSize - 1);
    }
  }

  /** `(0..outputSize).map(|_| Neuron::random(rng, inputSize))`. */
  function RandomNeurons(rng: Rng, inputSize: nat, outputSize: nat): (r: (seq<Neuron>, Rng))
    ensures |r.0| == outputSize
    ensures Layer(r.0).Accepts(inputSize) && Layer(r.0).Bounded()
    ensures r.1 == rng.Skip(LayerWeightCount(inputSize, outputSize))
    decreases outputSize
  {
    if outputSize == 0 then ([], rng)
    else
      var (n, rng1) := Neuron.Random(rng, inputSize);
      var (ns, rng2) := RandomNeurons(rng1, inputSize, outputSize - 1);
      assert LayerWeightCount(inputSize, outputSize)
          == (1 + inputSize) + LayerWeightCount(inputSize, outputSize - 1);
      ([n] + ns, rng2)
  }

  /** `(0..outputSize).map(|_| Neuron::from_weights(inputSize, weights))`,
      threading the stream from neuron to neuron. */
  function NeuronsFromWeights(inputSize: nat, outputSize: nat, ws: seq<real>): Result<(seq<Neuron>, seq<real>)>
    decreases outputSize
  {
    if outputSize == 0 then Ok(([], ws))
    else
      match Neuron.FromWeights(inputSize, ws)
      case Err(e) => Err(e)
      case Ok((n, rest)) =>
        match NeuronsFromWeights(inputSize, outputSize - 1, rest)
        case Err(e) => Err(e)
        case Ok((ns, rest')) => Ok(([n] + ns, rest'))
  }

  datatype Layer = Layer(neurons: seq<Neuron>) {

    /** Every neuron takes `width` inputs. */
    predicate Accepts(width: nat)
    {
      forall j :: 0 <= j < |neurons| ==> |neurons[j].weights| == width
    }

    predicate Bounded()
    {
      forall j :: 0 <= j < |neurons| ==> neurons[j].Bounded()
    }

    /** `Layer::propagate`: every neuron sees the whole input vector. */
    function Propagate(inputs: seq<real>): (r: seq<real>)
      requires Accepts(|inputs|)
      ensures |r| == |neurons|
      ensures forall i :: 0 <= i < |r| ==> r[i] == neurons[i].Propagate(inputs) && r[i] >= 0.0
    {
      seq(|neurons|, i requires 0 <= i < |neurons| => neurons[i].Propagate(inputs))
    }

    function Flat(): seq<real>
    {
      FlatNeurons(neurons)
    }

    /** `Layer::random`. */
    static function Random(rng: Rng, inputSize: nat, outputSize: nat): (r: (Layer, Rng))
      ensures |r.0.neurons| == outputSize
      ensures r.0.Accepts(inputSize) && r.0.Bounded()
      ensures r.1 == rng.Skip(LayerWeightCount(inputSize, outputSize))
    {
      var (ns, rng1) := RandomNeurons(rng, inputSize, outputSize);
      (Layer(ns), rng1)
    }

    /** `Layer::from_weights`, the inverse of the layer's part of `weights`:
        it fails only when fewer than (1 + inputSize) * outputSize values
        remain, and otherwise reads a layer of that shape whose flat values
        followed by the rest are the stream. */
    static function FromWeights(inputSize: nat, outputSize: nat, ws: seq<real>): (r: Result<(Layer, seq<real>)>)
      ensures r.Ok? <==> |ws| >= LayerWeightCount(inputSize, outputSize)
      ensures r.Err? ==> r.error == NotEnoughWeights
      ensures r.Ok? ==> |r.value.0.neurons| == outputSize && r.value.0.Accepts(inputSize)
                        && r.value.0.Flat() + r.value.1 == ws
    {
      NeuronsFromWeightsShape(inputSize, outputSize, ws);
      match NeuronsFromWeights(inputSize, outputSize, ws)
      case Err(e) => Err(e)
      case Ok((ns, rest)) => Ok((Layer(ns), rest))
    }
  }

  /** Each layer accepts the output width of the one before it, starting from
      an input vector of length `width`: exactly what `Network::propagate`
      needs to run without a failed assertion. */
  predicate ChainsFrom(layers: seq<Layer>, width: nat)
    decreases |layers|
  {
    |layers| == 0 || (layers[0].Accepts(width) && ChainsFrom(layers[1..], |layers[0].neurons|))
  }

  /** The fold in `Network::propagate`. */
  function PropagateLayers(layers: seq<Layer>, inputs: seq<real>): (r: seq<real>)
    requires ChainsFrom(layers, |inputs|)
    ensures |layers| == 0 ==> r == inputs
    ensures |layers| > 0 ==> |r| == |layers[|layers| - 1].neurons|
    ensures |layers| > 0 ==> forall i :: 0 <= i < |r| ==> r[i] >= 0.0
    decreases |layers|
  {
    if |layers| == 0 then inputs
    else PropagateLayers(layers[1..], layers[0].Propagate(inputs))
  }

  function FlatLayers(layers: seq<Layer>): seq<real>
    decreases |layers|
  {
    if |layers| == 0 then [] else layers[0].Flat() + FlatLayers(layers[1..])
  }

  /** The length of `weights()` for a network of topology `t`:
      the sum of (1 + t[k]) * t[k + 1] over adjacent pairs. */
  function WeightCount(t: seq<LayerTopology>): nat
    decreases |t|
  {
    if |t| < 2 then 0
    else LayerWeightCount(t[0].neurons, t[1].neurons) + WeightCount(t[1..])
  }

  /** `layers.windows(2).map(|l| Layer::random(rng, l[0], l[1]))`. */
  function RandomLayers(rng: Rng, t: seq<LayerTopology>): (r: (seq<Layer>, Rng))
    requires |t| >= 1
    ensures Network(r.0).Fits(t) && Network(r.0).Bounded()
    ensures r.1 == rng.Skip(WeightCount(t))
    decreases |t|
  {
    if |t| < 2 then ([], rng)
    else
      var (l, rng1) := Layer.Random(rng, t[0].neurons, t[1].neurons);
      var (ls, rng2) := RandomLayers(rng1, t[1..]);
      assert forall k :: 1 <= k < |ls| + 1 ==> ([l] + ls)[k] == ls[k - 1] && t[k + 1] == t[1..][k];
      ([l] + ls, rng2)
  }

  /** `layers.windows(2).map(|l| Layer::from_weights(l[0], l[1], &mut weights))`. */
  function LayersFromWeights(t: seq<LayerTopology>, ws: seq<real>): Result<(seq<Layer>, seq<real>)>
    decreases |t|
  {
    if |t| < 2 then Ok(([], ws))
    else
      match Layer.FromWeights(t[0].neurons, t[1].neurons, ws)
      case Err(e) => Err(e)
      case Ok((l, rest)) =>
        match LayersFromWeights(t[1..], rest)
        case Err(e) => Err(e)
        case Ok((ls, rest')) => Ok(([l] + ls, rest'))
  }

  datatype Network = Network(layers: seq<Layer>) {

    /** The network has the shape of topology `t`: one layer per adjacent
        pair, layer k with t[k + 1] neurons of t[k] weights each. */
    predicate Fits(t: seq<LayerTopology>)
    {
      && |layers| + 1 == |t|
      && forall k :: 0 <= k < |layers| ==>
           |layers[k].neurons| == t[k + 1].neurons && layers[k].Accepts(t[k].neurons)
    }

    predicate Bounded()
    {
      forall k :: 0 <= k < |layers| ==> layers[k].Bounded()
    }

    /** `Network::propagate`: the layers applied in order. */
    function Propagate(inputs: seq<real>): (r: seq<real>)
      requires ChainsFrom(layers, |inputs|)
      ensures |layers| > 0 ==> |r| == |layers[|layers| - 1].neurons|
      ensures |layers| > 0 ==> forall i :: 0 <= i < |r| ==> r[i] >= 0.0
    {
      PropagateLayers(layers, inputs)
    }

    /** `Network::weights`: layer by layer, neuron by neuron, bias then
        weights; for a network of topology `t` that is the sum of
        (1 + t[k]) * t[k + 1] over adjacent pairs of values. */
    function Weights(): (w: seq<real>)
      ensures forall t :: Fits(t) ==> |w| == WeightCount(t)
    {
      FlatLayersLengthAll(layers);
      FlatLayers(layers)
    }

    /** `Network::random`. */
    static function Random(rng: Rng, t: seq<LayerTopology>): (r: (Network, Rng))
      requires |t| > 1
      ensures r.0.Fits(t) && r.0.Bounded()
      ensures r.1 == rng.Skip(WeightCount(t))
    {
      var (ls, rng1) := RandomLayers(rng, t);
      (Network(ls), rng1)
    }

    /** `Network::from_weights`: rebuild every layer from the stream, then
        reject any weight left over. It succeeds exactly on streams of length
        WeightCount(t), and then yields a network of topology `t` whose
        `weights()` is the stream; a short stream is NotEnoughWeights and a
        long one TooManyWeights. */
    static function FromWeights(t: seq<LayerTopology>, ws: seq<real>): (r: Result<Network>)
      requires |t| > 1
      ensures r.Ok? <==> |ws| == WeightCount(t)
      ensures r.Ok? ==> r.value.Fits(t) && r.value.Weights() == ws
      ensures |ws| < WeightCount(t) ==> r == Err(NotEnoughWeights)
      ensures |ws| > WeightCount(t) ==> r == Err(TooManyWeights)
    {
      LayersFromWeightsShape(t, ws);
      match LayersFromWeights(t, ws)
      case Err(e) => Err(e)
      case Ok((ls, rest)) =>
        FlatLayersLength(ls, t);
        if |rest| > 0 then Err(TooManyWeights) else Ok(Network(ls))
    }
  }

  // ---------------------------------------------------------------------------
  // Serialisation: `from_weights` inverts `weights`

  lemma NeuronRoundTrip(n: Neuron, rest: seq<real>)
    ensures Neuron.FromWeights(|n.weights|, n.Flat() + rest) == Ok((n, rest))
  {
    var ws := n.Flat() + rest;
    var k := |n.weights|;
    assert ws[0] == n.bias;
    assert ws[1..1 + k] == n.weights;
    assert ws[1 + k..] == rest;
  }

  lemma {:induction false} NeuronsRoundTrip(ns: seq<Neuron>, inputSize: nat, rest: seq<real>)
    requires Layer(ns).Accepts(inputSize)
    ensures NeuronsFromWeights(inputSize, |ns|, FlatNeurons(ns) + rest) == Ok((ns, rest))
    decreases |ns|
  {
    if |ns| > 0 {
      var ws := FlatNeurons(ns) + rest;
      var tail := FlatNeurons(ns[1..]) + rest;
      assert ws == ns[0].Flat() + tail;
      assert |ns[0].weights| == inputSize;
      NeuronRoundTrip(ns[0], tail);
      assert Neuron.FromWeights(inputSize, ws) == Ok((ns[0], tail));
      assert Layer(ns[1..]).Accepts(inputSize) by {
        assert forall j :: 0 <= j < |ns[1..]| ==> ns[1..][j] == ns[j + 1];
      }
      NeuronsRoundTrip(ns[1..], inputSize, rest);
      assert NeuronsFromWeights(inputSize, |ns| - 1, tail) == Ok((ns[1..], rest));
      assert [ns[0]] + ns[1..] == ns;
      assert NeuronsFromWeights(inputSize, |ns|, ws) == Ok(([ns[0]] + ns[1..], rest));
    } else {
      assert FlatNeurons(ns) + rest == rest;
    }
  }

  lemma {:induction false} LayersRoundTrip(ls: seq<Layer>, t: seq<LayerTopology>, rest: seq<real>)
    requires Network(ls).Fits(t)
    ensures LayersFromWeights(t, FlatLayers(ls) + rest) == Ok((ls, rest))
    decreases |ls|
  {
    if |ls| > 0 {
      var ws := FlatLayers(ls) + rest;
      var tail := FlatLayers(ls[1..]) + rest;
      assert ws == ls[0].Flat() + tail;
      assert |ls[0].neurons| == t[1].neurons && ls[0].Accepts(t[0].neurons);
      NeuronsRoundTrip(ls[0].neurons, t[0].neurons, tail);
      assert Layer.FromWeights(t[0].neurons, t[1].neurons, ws) == Ok((ls[0], tail));
      assert Network(ls[1..]).Fits(t[1..]) by {
        assert forall k :: 0 <= k < |ls| - 1 ==> ls[1..][k] == ls[k + 1];
        assert forall k :: 0 <= k < |t| - 1 ==> t[1..][k] == t[k + 1];
      }
      LayersRoundTrip(ls[1..], t[1..], rest);
      assert LayersFromWeights(t[1..], tail) == Ok((ls[1..], rest));
      assert [ls[0]] + ls[1..] == ls;
      assert LayersFromWeights(t, ws) == Ok(([ls[0]] + ls[1..], rest));
    } else {
      assert FlatLayers(ls) + rest == rest;
    }
  }

  /** Rebuilding a network of topology `t` from its own weights gives it back. */
  lemma FromWeightsOfWeights(n: Network, t: seq<LayerTopology>)
    requires |t| > 1 && n.Fits(t)
    ensures Network.FromWeights(t, n.Weights()) == Ok(n)
  {
    LayersRoundTrip(n.layers, t, []);
    assert n.Weights() + [] == n.Weights();
  }

  lemma {:induction false} NeuronsFromWeightsShape(inputSize: nat, outputSize: nat, ws: seq<real>)
    ensures NeuronsFromWeights(inputSize, outputSize, ws).Ok? <==> |ws| >= LayerWeightCount(inputSize, outputSize)
    ensures NeuronsFromWeights(inputSize, outputSize, ws).Err? ==>
              NeuronsFromWeights(inputSize, outputSize, ws).error == NotEnoughWeights
    ensures NeuronsFromWeights(inputSize, outputSize, ws).Ok? ==>
              var (ns, rest) := NeuronsFromWeights(inputSize, outputSize, ws).value;
              |ns| == outputSize && Layer(ns).Accepts(inputSize) && FlatNeurons(ns) + rest == ws
    decreases outputSize
  {
    if outputSize > 0 {
      assert LayerWeightCount(inputSize, outputSize)
          == (1 + inputSize) + LayerWeightCount(inputSize, outputSize - 1);
      if |ws| >= 1 + inputSize {
        var n := Neuron(ws[0], ws[1..1 + inputSize]);
        var rest := ws[1 + inputSize..];
        assert n.Flat() + rest == ws;
        NeuronsFromWeightsShape(inputSize, outputSize - 1, rest);
        var r := NeuronsFromWeights(inputSize, outputSize - 1, rest);
        if r.Ok? {
          var (ns, rest') := r.value;
          assert FlatNeurons([n] + ns) == n.Flat() + FlatNeurons(ns) by {
            assert ([n] + ns)[1..] == ns;
          }
          assert forall j :: 1 <= j < 1 + |ns| ==> ([n] + ns)[j] == ns[j - 1];
        }
      }
    }
  }

  /** A layer of the first pair's shape in front of a network of the rest
      of the topology gives a network of the whole topology. */
  lemma FitsCons(l: Layer, ls: seq<Layer>, t: seq<LayerTopology>)
    requires |t| >= 2 && l.Accepts(t[0].neurons) && |l.neurons| == t[1].neurons
    requires Network(ls).Fits(t[1..])
    ensures Network([l] + ls).Fits(t)
  {
    forall k | 1 <= k < |ls| + 1
      ensures |([l] + ls)[k].neurons| == t[k + 1].neurons && ([l] + ls)[k].Accepts(t[k].neurons)
    {
      assert ([l] + ls)[k] == ls[k - 1];
      assert t[k] == t[1..][k - 1] && t[k + 1] == t[1..][k];
    }
  }

  lemma FlatLayersCons(l: Layer, ls: seq<Layer>)
    ensures FlatLayers([l] + ls) == l.Flat() + FlatLayers(ls)
  {
    assert ([l] + ls)[1..] == ls;
  }

  /** The success case of `LayersFromWeightsShape`: the first layer read,
      then the rest of the network read from what remains. */
  lemma LayersFromWeightsCons(t: seq<LayerTopology>, ws: seq<real>, l: Layer, rest: seq<real>)
    requires |t| >= 2
    requires Layer.FromWeights(t[0].neurons, t[1].neurons, ws) == Ok((l, rest))
    requires LayersFromWeights(t[1..], rest).Ok?
    requires Network(LayersFromWeights(t[1..], rest).value.0).Fits(t[1..])
    requires FlatLayers(LayersFromWeights(t[1..], rest).value.0) + LayersFromWeights(t[1..], rest).value.1 == rest
    ensures LayersFromWeights(t, ws).Ok?
    ensures Network(LayersFromWeights(t, ws).value.0).Fits(t)
    ensures FlatLayers(LayersFromWeights(t, ws).value.0) + LayersFromWeights(t, ws).value.1 == ws
  {
    var ls, rest' := LayersFromWeights(t[1..], rest).value.0, LayersFromWeights(t[1..], rest).value.1;
    assert LayersFromWeights(t, ws) == Ok(([l] + ls, rest'));
    FitsCons(l, ls, t);
    FlatLayersCons(l, ls);
    assert l.Flat() + (FlatLayers(ls) + rest') == ws;
  }

  lemma {:induction false} LayersFromWeightsShape(t: seq<LayerTopology>, ws: seq<real>)
    requires |t| >= 1
    ensures LayersFromWeights(t, ws).Ok? <==> |ws| >= WeightCount(t)
    ensures LayersFromWeights(t, ws).Err? ==> LayersFromWeights(t, ws).error == NotEnoughWeights
    ensures LayersFromWeights(t, ws).Ok? ==>
              Network(LayersFromWeights(t, ws).value.0).Fits(t)
              && FlatLayers(LayersFromWeights(t, ws).value.0) + LayersFromWeights(t, ws).value.1 == ws
    decreases |t|
  {
    if |t| >= 2 {
      var n0, n1 := t[0].neurons, t[1].neurons;
      assert WeightCount(t) == LayerWeightCount(n0, n1) + WeightCount(t[1..]);
      var r := Layer.FromWeights(n0, n1, ws);
      if r.Ok? {
        var l, rest := r.value.0, r.value.1;
        FlatNeuronsLength(l.neurons, n0);
        assert |rest| == |ws| - LayerWeightCount(n0, n1);
        LayersFromWeightsShape(t[1..], rest);
        var r' := LayersFromWeights(t[1..], rest);
        if r'.Ok? {
          LayersFromWeightsCons(t, ws, l, rest);
        } else {
          assert LayersFromWeights(t, ws) == Err(r'.error);
        }
      } else {
        assert LayersFromWeights(t, ws) == Err(r.error);
      }
    }
  }

  lemma {:induction false} FlatNeuronsLength(ns: seq<Neuron>, inputSize: nat)
    requires Layer(ns).Accepts(inputSize)
    ensures |FlatNeurons(ns)| == LayerWeightCount(inputSize, |ns|)
    decreases |ns|
  {
    if |ns| > 0 {
      assert Layer(ns[1..]).Accepts(inputSize) by {
        assert forall j :: 0 <= j < |ns[1..]| ==> ns[1..][j] == ns[j + 1];
      }
      FlatNeuronsLength(ns[1..], inputSize);
      assert LayerWeightCount(inputSize, |ns|) == (1 + inputSize) + LayerWeightCount(inputSize, |ns| - 1);
    }
  }

  /** The flat values of the layers of a network of topology `t` number
      the sum of (1 + t[k]) * t[k + 1] over adjacent pairs. */
  lemma {:induction false} FlatLayersLength(ls: seq<Layer>, t: seq<LayerTopology>)
    requires Network(ls).Fits(t)
    ensures |FlatLayers(ls)| == WeightCount(t)
    decreases |ls|
  {
    if |ls| > 0 {
      FlatNeuronsLength(ls[0].neurons, t[0].neurons);
      assert Network(ls[1..]).Fits(t[1..]) by {
        assert forall k :: 0 <= k < |ls| - 1 ==> ls[1..][k] == ls[k + 1];
        assert forall k :: 0 <= k < |t| - 1 ==> t[1..][k] == t[k + 1];
      }
      FlatLayersLength(ls[1..], t[1..]);
    }
  }

  lemma FlatLayersLengthAll(ls: seq<Layer>)
    ensures forall t :: Network(ls).Fits(t) ==> |FlatLayers(ls)| == WeightCount(t)
  {
    forall t | Network(ls).Fits(t)
      ensures |FlatLayers(ls)| == WeightCount(t)
    {
      FlatLayersLength(ls, t);
    }
  }

  // ---------------------------------------------------------------------------
  // Propagation

  /** A network of topology `t` accepts inputs of width t[0]. */
  lemma {:induction false} FitsChains(ls: seq<Layer>, t: seq<LayerTopology>)
    requires Network(ls).Fits(t)
    ensures ChainsFrom(ls, t[0].neurons)
    decreases |ls|
  {
    if |ls| > 0 {
      assert Network(ls[1..]).Fits(t[1..]) by {
        assert forall k :: 0 <= k < |ls| - 1 ==> ls[1..][k] == ls[k + 1];
        assert forall k :: 0 <= k < |t| - 1 ==> t[1..][k] == t[k + 1];
      }
      FitsChains(ls[1..], t[1..]);
    }
  }

  /** For a network of topology `t` and an input of width t[0], `propagate`
      runs without a failed assertion and yields t[|t| - 1] non-negative values. */
  lemma PropagateShape(n: Network, t: seq<LayerTopology>, inputs: seq<real>)
    requires |t| > 1 && n.Fits(t) && |inputs| == t[0].neurons
    ensures ChainsFrom(n.layers, |inputs|)
    ensures |n.Propagate(inputs)| == t[|t| - 1].neurons
    ensures forall i :: 0 <= i < |n.Propagate(inputs)| ==> n.Propagate(inputs)[i] >= 0.0
  {
    FitsChains(n.layers, t);
  }

  /** The layers are applied in order: propagating through `a + b` is
      propagating through `a`, then through `b`. */
  lemma {:induction false} PropagateInOrder(a: seq<Layer>, b: seq<Layer>, inputs: seq<real>)
    requires ChainsFrom(a + b, |inputs|)
    ensures ChainsFrom(a, |inputs|)
    ensures ChainsFrom(b, |PropagateLayers(a, inputs)|)
    ensures PropagateLayers(a + b, inputs) == PropagateLayers(b, PropagateLayers(a, inputs))
    decreases |a|
  {
    if |a| == 0 {
      assert a + b == b;
    } else {
      assert (a + b)[0] == a[0];
      assert (a + b)[1..] == a[1..] + b;
      PropagateInOrder(a[1..], b, a[0].Propagate(inputs));
    }
  }

  // ---------------------------------------------------------------------------
  // Random construction draws the weights in serialisation order

  /** Drawing m + n values is drawing m values, then n more. */
  lemma {:induction false} RandomValuesSplit(rng: Rng, m: nat, n: nat)
    ensures RandomValues(rng, m + n).0 == RandomValues(rng, m).0 + RandomValues(rng.Skip(m), n).0
    decreases m
  {
    if m > 0 {
      var rng1 := rng.Skip(1);
      var x := GenRange(rng, -1.0, 1.0).0;
      RandomValuesSplit(rng1, m - 1, n);
      assert rng1.Skip(m - 1) == rng.Skip(m);
      var left, right := RandomValues(rng1, m - 1).0, RandomValues(rng.Skip(m), n).0;
      assert RandomValues(rng, m + n).0 == [x] + (left + right);
      assert RandomValues(rng, m).0 == [x] + left;
      assert [x] + (left + right) == ([x] + left) + right;
    }
  }

  lemma FlatNeuronsCons(n: Neuron, ns: seq<Neuron>)
    ensures FlatNeurons([n] + ns) == n.Flat() + FlatNeurons(ns)
  {
    assert ([n] + ns)[1..] == ns;
  }

  /** Unrolling `RandomNeurons` by its first neuron. */
  lemma RandomNeuronsCons(rng: Rng, inputSize: nat, outputSize: nat)
    requires outputSize > 0
    ensures RandomNeurons(rng, inputSize, outputSize).0
         == [Neuron.Random(rng, inputSize).0] + RandomNeurons(rng.Skip(1 + inputSize), inputSize, outputSize - 1).0
  {
  }

  lemma {:induction false} RandomNeuronsAreDraws(rng: Rng, inputSize: nat, outputSize: nat)
    ensures FlatNeurons(RandomNeurons(rng, inputSize, outputSize).0)
         == RandomValues(rng, LayerWeightCount(inputSize, outputSize)).0
    decreases outputSize
  {
    if outputSize > 0 {
      var m, rest := 1 + inputSize, LayerWeightCount(inputSize, outputSize - 1);
      var n := Neuron.Random(rng, inputSize).0;
      var rng1 := rng.Skip(m);
      var ns := RandomNeurons(rng1, inputSize, outputSize - 1).0;
      var first, second := RandomValues(rng, m).0, RandomValues(rng1, rest).0;
      assert LayerWeightCount(inputSize, outputSize) == m + rest;
      calc {
        FlatNeurons(RandomNeurons(rng, inputSize, outputSize).0);
        == { RandomNeuronsCons(rng, inputSize, outputSize); }
        FlatNeurons([n] + ns);
        == { FlatNeuronsCons(n, ns); }
        n.Flat() + FlatNeurons(ns);
        == { assert n.Flat() == first;
             assert FlatNeurons(ns) == second by {
               RandomNeuronsAreDraws(rng1, inputSize, outputSize - 1);
             } }
        first + second;
        == { RandomValuesSplit(rng, m, rest); }
        RandomValues(rng, m + rest).0;
      }
    }
  }

  lemma {:induction false} RandomLayersAreDraws(rng: Rng, t: seq<LayerTopology>)
    requires |t| >= 1
    ensures FlatLayers(RandomLayers(rng, t).0) == RandomValues(rng, WeightCount(t)).0
    decreases |t|
  {
    if |t| >= 2 {
      var a, b := t[0].neurons, t[1].neurons;
      var m, rest := LayerWeightCount(a, b), WeightCount(t[1..]);
      var l := Layer.Random(rng, a, b).0;
      var rng1 := rng.Skip(m);
      var ls := RandomLayers(rng1, t[1..]).0;
      var first, second := RandomValues(rng, m).0, RandomValues(rng1, rest).0;
      assert RandomLayers(rng, t).0 == [l] + ls;
      assert WeightCount(t) == m + rest;
      assert FlatLayers(ls) == second by {
        RandomLayersAreDraws(rng1, t[1..]);
      }
      assert l.Flat() == first by {
        RandomNeuronsAreDraws(rng, a, b);
      }
      assert RandomValues(rng, m + rest).0 == first + second by {
        RandomValuesSplit(rng, m, rest);
      }
      FlatLayersCons(l, ls);
    }
  }

  /** The flat weights of `Network::random(rng, t)` are exactly the first
      WeightCount(t) values drawn from `rng`, in the order drawn; so the
      random constructor and the serialiser agree on one order. */
  lemma RandomWeightsAreDraws(rng: Rng, t: seq<LayerTopology>)
    requires |t| > 1
    ensures Network.Random(rng, t).0.Weights() == RandomValues(rng, WeightCount(t)).0
  {
    RandomLayersAreDraws(rng, t);
  }

  // ---------------------------------------------------------------------------
  // The crate's own examples

  /** bias 0.5 and weights [-0.3, 0.8]: inputs [-10, -10] hit the ReLU floor;
      inputs [0.5, 1.0] give -0.3 * 0.5 + 0.8 * 1.0 + 0.5. */
  lemma NeuronPropagateExample()
    ensures Neuron(0.5, [-0.3, 0.8]).Propagate([-10.0, -10.0]) == 0.0
    ensures Neuron(0.5, [-0.3, 0.8]).Propagate([0.5, 1.0]) == -0.3 * 0.5 + 0.8 * 1.0 + 0.5
  {
  }

  lemma WeightsExample()
    ensures Network([Layer([Neuron(0.1, [0.2, 0.3, 0.4])]), Layer([Neuron(0.5, [0.6, 0.7, 0.8])])]).Weights()
         == [0.1, 0.2, 0.3, 0.4, 0.5, 0.6, 0.7, 0.8]
  {
    var l1, l2 := Layer([Neuron(0.1, [0.2, 0.3, 0.4])]), Layer([Neuron(0.5, [0.6, 0.7, 0.8])]);
    assert l1.Flat() == [0.1, 0.2, 0.3, 0.4];
    assert l2.Flat() == [0.5, 0.6, 0.7, 0.8];
    assert [l1, l2][1..] == [l2];
  }

  lemma FromWeightsExample()
    ensures Network.FromWeights([LayerTopology(3), LayerTopology(2)], [0.1, 0.2, 0.3, 0.4, 0.5, 0.6, 0.7, 0.8]).Ok?
    ensures Network.FromWeights([LayerTopology(3), LayerTopology(2)], [0.1, 0.2, 0.3, 0.4, 0.5, 0.6, 0.7, 0.8]).value.Weights()
         == [0.1, 0.2, 0.3, 0.4, 0.5, 0.6, 0.7, 0.8]
  {
    var t := [LayerTopology(3), LayerTopology(2)];
    assert WeightCount(t) == 8 by {
      assert t[1..][1..] == [];
    }
  }
}
