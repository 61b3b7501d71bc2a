/** `GeneticAlgorithm`: one generational step. Every offspring slot selects
    two parents from the input population, crosses their chromosomes,
    mutates the child in place and turns it into a new individual; the
    statistics describe the input population. */
module Evolution {
  import opened Random
  import opened Chromosomes
  import opened Crossover
  import opened Mutation
  import opened Individuals

  /** The `SelectionMethod` trait: given the generator and a non-empty
      population, pick one individual (by its index in the population) and
      hand back the advanced generator. The picked index is always in range
      because the source returns a reference into the population. */
  type SelectionMethod<!I(!new)> = f: (Rng, seq<I>) -> (nat, Rng) | forall rng, pop :: |pop| > 0 ==> f(rng, pop).0 < |pop|
    witness (rng: Rng, pop: seq<I>) => (0, rng)

  /** The population snapshot `Statistics::new` summarises: the fitness of
      every individual, in population order. */
  datatype Statistics = Statistics(fitnesses: seq<real>) {

    static function New<I>(ind: Individual<I>, population: seq<I>): (s: Statistics)
      ensures |s.fitnesses| == |population|
      ensures forall i :: 0 <= i < |population| ==> s.fitnesses[i] == ind.fitness(population[i])
    {
      Statistics(seq(|population|, i requires 0 <= i < |population| => ind.fitness(population[i])))
    }
  }

  /** Every individual of the population has a chromosome, and all of them
      have the same length, so that any two can be crossed. */
  ghost predicate Breedable<I>(ind: Individual<I>, population: seq<I>)
  {
    && (forall i :: 0 <= i < |population| ==> ind.chromosome.requires(population[i]))
    && (forall i, j :: 0 <= i < |population| && 0 <= j < |population| ==>
          ind.chromosome(population[i]).Len() == ind.chromosome(population[j]).Len())
  }

  datatype GeneticAlgorithm<!I(!new)> = GeneticAlgorithm(
    selectionMethod: SelectionMethod<I>,
    crossoverMethod: UniformCrossover,
    mutationMethod: GaussianMutation)
  {
    /** `GeneticAlgorithm::new`. */
    static function New(selection: SelectionMethod<I>, crossover: UniformCrossover, mutation: GaussianMutation): (ga: GeneticAlgorithm<I>)
      ensures ga.selectionMethod == selection && ga.crossoverMethod == crossover && ga.mutationMethod == mutation
    {
      GeneticAlgorithm(selection, crossover, mutation)
    }

    /** The chromosome one offspring slot produces, from the generator as the
        slot starts: two selections, one crossover, one mutation. Every gene
        of the child is within |coeff| of the same gene of one of the two
        selected parents. */
    function Offspring(ind: Individual<I>, rng: Rng, population: seq<I>): (r: (Chromosome, Rng))
      requires |population| > 0 && Breedable(ind, population)
      ensures r.0.Len() == ind.chromosome(population[0]).Len()
      ensures var (a, rng1) := selectionMethod(rng, population);
              var b := selectionMethod(rng1, population).0;
              forall k :: 0 <= k < r.0.Len() ==>
                || Abs(r.0.Index(k) - ind.chromosome(population[a]).Index(k)) <= Abs(mutationMethod.coeff)
                || Abs(r.0.Index(k) - ind.chromosome(population[b]).Index(k)) <= Abs(mutationMethod.coeff)
    {
      var (a, rng1) := selectionMethod(rng, population);
      var (b, rng2) := selectionMethod(rng1, population);
      var parentA, parentB := ind.chromosome(population[a]), ind.chromosome(population[b]);
      var (child, rng3) := crossoverMethod.Crossover(rng2, parentA, parentB);
      var (genes, rng4) := mutationMethod.Mutated(rng3, child.Iter());
      MutationIsBounded(mutationMethod, rng3, child.genes);
      (Chromosome.FromIter(genes), rng4)
    }

    /** The chromosomes of `slots` offspring slots, processed in order, and the
        generator after the last one. */
    function Children(ind: Individual<I>, rng: Rng, population: seq<I>, slots: nat): (r: (seq<Chromosome>, Rng))
      requires |population| > 0 && Breedable(ind, population)
      ensures |r.0| == slots
      ensures forall j :: 0 <= j < slots ==> r.0[j].Len() == ind.chromosome(population[0]).Len()
      decreases slots
    {
      if slots == 0 then ([], rng)
      else
        var (child, rng1) := Offspring(ind, rng, population);
        var (rest, rng2) := Children(ind, rng1, population, slots - 1);
        ([child] + rest, rng2)
    }

    /** `GeneticAlgorithm::evolve`: as many offspring as input individuals,
        each `create`d from its slot's chromosome; the statistics are those
        of the input population, which is only read. When `create` and
        `chromosome` round-trip, the offspring can be bred again: they all
        have chromosomes of the input's common length. */
    method Evolve(ind: Individual<I>, rng: Rng, population: seq<I>) returns (offspring: seq<I>, stats: Statistics, rng': Rng)
      requires |population| > 0
      requires Breedable(ind, population)
      ensures |offspring| == |population|
      ensures forall j :: 0 <= j < |offspring| ==>
                offspring[j] == ind.create(Children(ind, rng, population, |population|).0[j])
      ensures rng' == Children(ind, rng, population, |population|).1
      ensures stats == Statistics.New(ind, population)
      ensures ind.CreateRoundTrips() ==>
                && Breedable(ind, offspring)
                && forall j :: 0 <= j < |offspring| ==>
                     ind.chromosome(offspring[j]).Len() == ind.chromosome(population[0]).Len()
    {
      ghost var made: seq<Chromosome> := [];
      offspring := [];
      rng' := rng;
      var slot := 0;
      while slot < |population|
        invariant 0 <= slot <= |population|
        invariant (made, rng') == Children(ind, rng, population, slot)
        invariant |offspring| == slot
        invariant forall j :: 0 <= j < slot ==> offspring[j] == ind.create(made[j])
      {
        var child, rng4 := Breed(ind, rng', population);
        ChildrenSnoc(ind, rng, population, slot);
        offspring := offspring + [ind.create(child)];
        made := made + [child];
        rng' := rng4;
        slot := slot + 1;
      }
      stats := Statistics.New(ind, population);
      OffspringBreedable(ind, population, made, offspring);
    }

    /** The body of the loop in `evolve` that makes one child: select both
        parents, cross them, then mutate the child's genes in place. */
    method Breed(ind: Individual<I>, rng: Rng, population: seq<I>) returns (child: Chromosome, rng': Rng)
      requires |population| > 0 && Breedable(ind, population)
      ensures (child, rng') == Offspring(ind, rng, population)
    {
      // Selection
      var (a, rng1) := selectionMethod(rng, population);
      var (b, rng2) := selectionMethod(rng1, population);
      var parentA, parentB := ind.chromosome(population[a]), ind.chromosome(population[b]);
      // Crossover
      var (crossed, rng3) := crossoverMethod.Crossover(rng2, parentA, parentB);
      // Mutation, in place
      var genes := new real[crossed.Len()](k requires 0 <= k < crossed.Len() => crossed.Index(k));
      assert genes[..] == crossed.Iter();
      rng' := mutationMethod.Mutate(rng3, genes);
      child := Chromosome.FromIter(genes[..]);
    }

    /** One more slot appends its child to the children made so far, and
        starts from the generator they leave. */
    lemma {:induction false} ChildrenSnoc(ind: Individual<I>, rng: Rng, population: seq<I>, slots: nat)
      requires |population| > 0 && Breedable(ind, population)
      ensures var (made, rng1) := Children(ind, rng, population, slots);
              var (child, rng2) := Offspring(ind, rng1, population);
              Children(ind, rng, population, slots + 1) == (made + [child], rng2)
      decreases slots
    {
      if slots > 0 {
        var (first, rng1) := Offspring(ind, rng, population);
        ChildrenSnoc(ind, rng1, population, slots - 1);
        var (made, rngM) := Children(ind, rng1, population, slots - 1);
        var (child, rng2) := Offspring(ind, rngM, population);
        assert Children(ind, rng, population, slots) == ([first] + made, rngM);
        assert Children(ind, rng, population, slots + 1) == ([first] + (made + [child]), rng2);
        assert [first] + (made + [child]) == ([first] + made) + [child];
      } else {
        var (child, rng2) := Offspring(ind, rng, population);
        assert Children(ind, rng, population, 1) == ([child] + [], rng2);
        assert [child] + [] == [] + [child];
      }
    }
  }

  /** Individuals created from chromosomes of one common length can be bred,
      provided `create` and `chromosome` round-trip. */
  lemma OffspringBreedable<I(!new)>(ind: Individual<I>, population: seq<I>, made: seq<Chromosome>, offspring: seq<I>)
    requires |population| > 0 && Breedable(ind, population)
    requires |made| == |offspring|
    requires forall j :: 0 <= j < |offspring| ==> offspring[j] == ind.create(made[j])
    requires forall j :: 0 <= j < |made| ==> made[j].Len() == ind.chromosome(population[0]).Len()
    ensures ind.CreateRoundTrips() ==>
              && Breedable(ind, offspring)
              && forall j :: 0 <= j < |offspring| ==>
                   ind.chromosome(offspring[j]).Len() == ind.chromosome(population[0]).Len()
  {
  }

  /** The generator as slot `j` starts. */
  function SlotCursor<I(!new)>(ga: GeneticAlgorithm<I>, ind: Individual<I>, rng: Rng, population: seq<I>, j: nat): Rng
    requires |population| > 0 && Breedable(ind, population)
  {
    ga.Children(ind, rng, population, j).1
  }

  /** Slots are processed in order: the chromosome of slot `j` is what one
      slot produces from the generator left by slots 0 .. j - 1, whatever
      the total number of slots. */
  lemma {:induction false} ChildAt<I(!new)>(ga: GeneticAlgorithm<I>, ind: Individual<I>, rng: Rng, population: seq<I>, slots: nat, j: nat)
    requires |population| > 0 && Breedable(ind, population) && j < slots
    ensures ga.Children(ind, rng, population, slots).0[j]
         == ga.Offspring(ind, SlotCursor(ga, ind, rng, population, j), population).0
    decreases slots
  {
    var (made, rng1) := ga.Children(ind, rng, population, slots - 1);
    ga.ChildrenSnoc(ind, rng, population, slots - 1);
    var child := ga.Offspring(ind, rng1, population).0;
    assert ga.Children(ind, rng, population, slots).0 == made + [child];
    if j < slots - 1 {
      ChildAt(ga, ind, rng, population, slots - 1, j);
      assert (made + [child])[j] == made[j];
    } else {
      assert SlotCursor(ga, ind, rng, population, j) == rng1;
      assert (made + [child])[j] == child;
    }
  }
}
