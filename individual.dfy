/** The `Individual` trait of the genetic algorithm and its test double
    `TestIndividual`. */
module Individuals {
  import C = Chromosomes

  /** What the algorithm needs of an individual type `I`: its fitness, its
      chromosome (which may be unavailable, as for `TestIndividual::WithFitness`)
      and `create`, which builds an individual from a bred chromosome. */
  datatype Individual<!I> = Individual(fitness: I -> real, chromosome: I --> C.Chromosome, create: C.Chromosome -> I) {

    /** `create(c).chromosome()` is `c` for every chromosome `c`. */
    ghost predicate CreateRoundTrips()
    {
      forall c :: chromosome.requires(create(c)) && chromosome(create(c)) == c
    }
  }

  /** `chromosome.iter().sum()`. */
  function Sum(genes: seq<real>): real
    decreases |genes|
  {
    if |genes| == 0 then 0.0 else genes[0] + Sum(genes[1..])
  }

  datatype TestIndividual = WithChromosome(genome: C.Chromosome) | WithFitness(score: real) {

    /** `TestIndividual::new`: an individual known only by its fitness. */
    static function New(fitness: real): (t: TestIndividual)
      ensures t.Fitness() == fitness
    {
      WithFitness(fitness)
    }

    /** `Individual::create`. */
    static function Create(c: C.Chromosome): (t: TestIndividual)
      ensures t.WithChromosome? && t.genome == c
    {
      WithChromosome(c)
    }

    /** `Individual::chromosome`; the source panics on `WithFitness`. An
        individual with a chromosome is the one `create` builds from it. */
    function Chromosome(): (c: C.Chromosome)
      requires WithChromosome?
      ensures Create(c) == this
    {
      genome
    }

    /** `Individual::fitness`: the sum of the genes, or the given fitness. */
    function Fitness(): (f: real)
      ensures WithChromosome? ==> f == Sum(Chromosome().Iter())
      ensures WithFitness? ==> f == score
    {
      match this
      case WithChromosome(c) => Sum(c.Iter())
      case WithFitness(f) => f
    }
  }

  /** `impl Individual for TestIndividual`. */
  function TestIndividualImpl(): (ind: Individual<TestIndividual>)
    ensures ind.CreateRoundTrips()
  {
    Individual(
      (t: TestIndividual) => t.Fitness(),
      (t: TestIndividual) requires t.WithChromosome? => t.Chromosome(),
      (c: C.Chromosome) => TestIndividual.Create(c))
  }

  /** A created test individual's fitness is the sum of its genes; the
      crate's population [0, 0, 0], [1, 1, 1], [1, 2, 1], [1, 2, 4] has
      fitnesses 0, 3, 4 and 7. */
  lemma CreatedFitnessIsGeneSum(c: C.Chromosome)
    ensures TestIndividual.Create(c).Fitness() == Sum(c.genes)
    ensures TestIndividual.Create(C.Chromosome([1.0, 2.0, 4.0])).Fitness() == 7.0
  {
    var g := [1.0, 2.0, 4.0];
    assert g[1..] == [2.0, 4.0] && g[1..][1..] == [4.0] && g[1..][1..][1..] == [];
  }
}
