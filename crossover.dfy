/** `UniformCrossover`: the child takes each gene from one parent or the
    other, on one coin flip per gene. */
module Crossover {
  import opened Random
  import opened Chromosomes

  /** True when the coin `gen_bool(0.5)` drawn as `u` comes up heads. */
  predicate Heads(u: real)
  {
    u < 0.5
  }

  /** The zip/map over the parents' genes, one coin per gene, in order. */
  function CrossGenes(rng: Rng, a: seq<real>, b: seq<real>): (r: (seq<real>, Rng))
    requires |a| == |b|
    ensures |r.0| == |a|
    ensures forall i :: 0 <= i < |a| ==> r.0[i] == if Heads(rng.Peek(i)) then a[i] else b[i]
    ensures r.1 == rng.Skip(|a|)
    decreases |a|
  {
    if |a| == 0 then ([], rng)
    else
      var (coin, rng1) := GenBool(rng, 0.5);
      var (rest, rng2) := CrossGenes(rng1, a[1..], b[1..]);
      assert forall i :: 1 <= i < |a| ==> rng1.Peek(i - 1) == rng.Peek(i);
      ([if coin then a[0] else b[0]] + rest, rng2)
  }

  datatype UniformCrossover = UniformCrossover {

    /** `UniformCrossover::crossover`; parents of different lengths make the
        source's assertion fail. The parents are only read. */
    function Crossover(rng: Rng, parentA: Chromosome, parentB: Chromosome): (r: (Chromosome, Rng))
      requires parentA.Len() == parentB.Len()
      ensures r.0.Len() == parentA.Len()
      ensures forall i :: 0 <= i < parentA.Len() ==>
                r.0.Index(i) == if Heads(rng.Peek(i)) then parentA.Index(i) else parentB.Index(i)
      ensures r.1 == rng.Skip(parentA.Len())
    {
      var (genes, rng1) := CrossGenes(rng, parentA.Iter(), parentB.Iter());
      (Chromosome.FromIter(genes), rng1)
    }
  }

  /** Every child gene is the gene at the same index in one of the parents. */
  lemma CrossoverPicksParentGenes(x: UniformCrossover, rng: Rng, a: Chromosome, b: Chromosome, i: nat)
    requires a.Len() == b.Len() && i < a.Len()
    ensures x.Crossover(rng, a, b).0.Index(i) in {a.Index(i), b.Index(i)}
  {
  }

  /** Crossing a chromosome with itself gives it back, whatever the coins. */
  lemma CrossoverWithItself(x: UniformCrossover, rng: Rng, a: Chromosome)
    ensures x.Crossover(rng, a, a).0 == a
  {
    var c := x.Crossover(rng, a, a).0;
    assert c.genes == a.genes by {
      assert forall i :: 0 <= i < a.Len() ==> c.genes[i] == a.genes[i];
    }
  }
}
