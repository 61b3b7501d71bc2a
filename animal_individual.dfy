/** `AnimalIndividual`: an animal as the genetic algorithm sees it (its
    satiation as fitness, its brain's weights as chromosome), and the way
    back from a bred chromosome to a fresh animal. */
module AnimalIndividuals {
  import opened NeuralNetwork
  import opened Chromosomes
  import opened Eyes
  import opened Brains
  import opened Individuals
  import Evolution

  /** The part of an animal the projection reads or rebuilds: its eye, its
      brain and the number of foods it has eaten since the last generation. */
  datatype Animal = Animal(eye: Eye, brain: Brain, satiation: nat) {

    /** The animal's brain is shaped by its eye. */
    predicate WellFormed()
    {
      eye.Valid() && brain.nn.Fits(Brain.Topology(eye))
    }

    /** `Animal::as_chromosome`: the brain's chromosome. */
    function AsChromosome(): (c: Chromosome)
      requires WellFormed()
      ensures c.Len() == ChromosomeLength(eye.Cells())
      ensures Brain.FromChromosome(c, eye) == Ok(brain)
    {
      ChromosomeLengthOfBrain(brain, eye);
      BrainRoundTrip(brain, eye);
      brain.AsChromosome()
    }

    /** `Animal::from_chromosome`: a fresh animal with the default eye, a
        brain rebuilt from the chromosome against that eye's topology, and
        nothing eaten yet. It fails exactly when the chromosome does not have
        the topology's length. */
    static function FromChromosome(c: Chromosome): (r: Result<Animal>)
      ensures r.Ok? <==> c.Len() == ChromosomeLength(CELLS)
      ensures r.Ok? ==> r.value.WellFormed() && r.value.satiation == 0
                        && r.value.eye == Eye.Default() && r.value.AsChromosome() == c
    {
      match Brain.FromChromosome(c, Eye.Default())
      case Err(e) => Err(e)
      case Ok(b) => Ok(Animal(Eye.Default(), b, 0))
    }
  }

  datatype AnimalIndividual = AnimalIndividual(fitness: real, genome: Chromosome) {

    /** `AnimalIndividual::from_animal`: fitness is the satiation as a
        number, never negative; the chromosome is the animal's brain's. */
    static function FromAnimal(a: Animal): (r: AnimalIndividual)
      requires a.WellFormed()
      ensures r.Fitness() == a.satiation as real && r.Fitness() >= 0.0
      ensures r.Chromosome().Len() == ChromosomeLength(a.eye.Cells())
      ensures Brain.FromChromosome(r.Chromosome(), a.eye) == Ok(a.brain)
    {
      AnimalIndividual(a.satiation as real, a.AsChromosome())
    }

    /** `AnimalIndividual::into_animal`: the chromosome goes unchanged to
        `Animal::from_chromosome`; the fitness is dropped. */
    function IntoAnimal(): (r: Result<Animal>)
      ensures r.Ok? <==> genome.Len() == ChromosomeLength(CELLS)
      ensures r.Ok? ==> r.value.WellFormed() && r.value.satiation == 0 && r.value.AsChromosome() == Chromosome()
    {
      Animal.FromChromosome(genome)
    }

    /** `Individual::create`: a bred individual has fitness 0. */
    static function Create(c: Chromosome): (r: AnimalIndividual)
      ensures r.fitness == 0.0 && r.genome == c
    {
      AnimalIndividual(0.0, c)
    }

    /** `Individual::chromosome`: an individual of fitness 0 is the one
        `create` builds from its chromosome. */
    function Chromosome(): (c: Chromosome)
      ensures c == genome
      ensures fitness == 0.0 ==> Create(c) == this
    {
      genome
    }

    /** `Individual::fitness`. */
    function Fitness(): (f: real)
      ensures f == fitness
    {
      fitness
    }
  }

  /** `impl Individual for AnimalIndividual`. */
  function AnimalIndividualImpl(): (ind: Individual<AnimalIndividual>)
    ensures ind.CreateRoundTrips()
    ensures forall c :: ind.fitness(ind.create(c)) == 0.0
  {
    Individual(
      (a: AnimalIndividual) => a.Fitness(),
      (a: AnimalIndividual) => a.Chromosome(),
      (c: Chromosome) => AnimalIndividual.Create(c))
  }

  /** An animal with the default eye comes back from its individual with its
      own eye and brain and an empty stomach: only the satiation is reset. */
  lemma AnimalRoundTrip(a: Animal)
    requires a.WellFormed() && a.eye == Eye.Default()
    ensures AnimalIndividual.FromAnimal(a).IntoAnimal() == Ok(Animal(a.eye, a.brain, 0))
  {
    var c := AnimalIndividual.FromAnimal(a).Chromosome();
    assert Brain.FromChromosome(c, Eye.Default()) == Ok(a.brain);
  }

  /** The individuals of a world of default-eyed animals can be bred: every
      chromosome has the same length, 218 genes. */
  lemma AnimalsBreedable(animals: seq<Animal>)
    requires forall i :: 0 <= i < |animals| ==> animals[i].WellFormed() && animals[i].eye == Eye.Default()
    ensures var pop := seq(|animals|, i requires 0 <= i < |animals| => AnimalIndividual.FromAnimal(animals[i]));
            && Evolution.Breedable(AnimalIndividualImpl(), pop)
            && forall i :: 0 <= i < |pop| ==> pop[i].Chromosome().Len() == 218
  {
    assert ChromosomeLength(CELLS) == 218;
  }
}
