/** `Brain`: the network that steers an animal, shaped by its eye, and its
    projection to and from a chromosome. */
module Brains {
  import opened Random
  import opened NeuralNetwork
  import opened Chromosomes
  import opened Eyes

  /** The number of genes of a brain behind an eye of `cells` cells: the
      weights of a cells -> 2 cells layer and of a 2 cells -> 2 layer. */
  function ChromosomeLength(cells: nat): nat
  {
    (cells + 1) * (2 * cells) + (2 * cells + 1) * 2
  }

  datatype Brain = Brain(nn: Network) {

    /** `Brain::topology`: one input per eye cell, a hidden layer twice as
        wide, two outputs (speed and rotation). */
    static function Topology(eye: Eye): (t: seq<LayerTopology>)
      ensures |t| == 3
      ensures t[0].neurons == eye.Cells() && t[1].neurons == 2 * eye.Cells() && t[2].neurons == 2
      ensures WeightCount(t) == ChromosomeLength(eye.Cells())
    {
      var t := [LayerTopology(eye.Cells()), LayerTopology(2 * eye.Cells()), LayerTopology(2)];
      var c := eye.Cells();
      assert WeightCount(t[2..]) == 0;
      assert t[1..][1..] == t[2..];
      assert WeightCount(t[1..]) == LayerWeightCount(2 * c, 2);
      LayerWeightCountProduct(c, 2 * c);
      LayerWeightCountProduct(2 * c, 2);
      assert WeightCount(t) == LayerWeightCount(c, 2 * c) + LayerWeightCount(2 * c, 2);
      t
    }

    /** `Brain::random`: a random network of the eye's topology, every weight
        in [-1, 1], drawing one value per gene. */
    static function Random(rng: Rng, eye: Eye): (r: (Brain, Rng))
      ensures r.0.nn.Fits(Topology(eye)) && r.0.nn.Bounded()
      ensures r.1 == rng.Skip(ChromosomeLength(eye.Cells()))
    {
      var (nn, rng1) := Network.Random(rng, Topology(eye));
      (Brain(nn), rng1)
    }

    /** `Brain::as_chromosome`: the network's weights as genes. */
    function AsChromosome(): (c: Chromosome)
      ensures c.Len() == |nn.Weights()|
      ensures forall i :: 0 <= i < c.Len() ==> c.Index(i) == nn.Weights()[i]
    {
      Chromosome.FromIter(nn.Weights())
    }

    /** `Brain::from_chromosome`: the network rebuilt from the genes against
        the eye's topology. It succeeds exactly when the chromosome has the
        topology's length, and then gives back a brain of that shape whose
        chromosome is the one it was built from. */
    static function FromChromosome(c: Chromosome, eye: Eye): (r: Result<Brain>)
      ensures r.Ok? <==> c.Len() == ChromosomeLength(eye.Cells())
      ensures r.Ok? ==> r.value.nn.Fits(Topology(eye)) && r.value.AsChromosome() == c
      ensures c.Len() < ChromosomeLength(eye.Cells()) ==> r == Err(NotEnoughWeights)
      ensures c.Len() > ChromosomeLength(eye.Cells()) ==> r == Err(TooManyWeights)
    {
      match Network.FromWeights(Topology(eye), c.IntoIter())
      case Err(e) => Err(e)
      case Ok(nn) => Ok(Brain(nn))
    }
  }

  /** A brain of the eye's topology survives the trip through its chromosome. */
  lemma BrainRoundTrip(b: Brain, eye: Eye)
    requires b.nn.Fits(Brain.Topology(eye))
    ensures Brain.FromChromosome(b.AsChromosome(), eye) == Ok(b)
  {
    FromWeightsOfWeights(b.nn, Brain.Topology(eye));
    assert b.AsChromosome().IntoIter() == b.nn.Weights();
  }

  /** Every brain of the eye's topology has a chromosome of the topology's
      length; 218 genes behind the default nine-cell eye. */
  lemma ChromosomeLengthOfBrain(b: Brain, eye: Eye)
    requires b.nn.Fits(Brain.Topology(eye))
    ensures b.AsChromosome().Len() == ChromosomeLength(eye.Cells())
    ensures ChromosomeLength(Eye.Default().Cells()) == 218
  {
  }

  /** The genes of a random brain are the generator's next draws, scaled
      to [-1, 1], in order. */
  lemma RandomBrainGenes(rng: Rng, eye: Eye)
    ensures Brain.Random(rng, eye).0.AsChromosome().Iter()
         == RandomValues(rng, ChromosomeLength(eye.Cells())).0
  {
    RandomWeightsAreDraws(rng, Brain.Topology(eye));
  }
}
