# Shorelark core, modelled in Dafny

Shorelark evolves small neural-network "brains" for simulated birds with a
genetic algorithm. This project models the structural core of that loop:

- the feed-forward ReLU network (`Neuron`, `Layer`, `Network`): forward
  propagation, random construction, and the flat serialisation
  `weights` / `from_weights` that turns a network into a chromosome and back
  (`neural_network.dfy`);
- the genetic algorithm: the `Chromosome` gene vector (`chromosome.dfy`),
  uniform crossover (`crossover.dfy`), chance-gated mutation done in place on
  an array (`mutation.dfy`), the `Individual` interface and its
  `TestIndividual` double (`individual.dfy`), and the generational step
  `GeneticAlgorithm::evolve` (`genetic_algorithm.dfy`);
- the simulation's projections between an animal and a chromosome: the
  `Brain` with its fixed topology `[cells, 2·cells, 2]` (`brain.dfy`) and
  `AnimalIndividual` (`animal_individual.dfy`);
- the `Eye`, which accumulates the energy of every visible food into one of a
  fixed number of cells (`eye.dfy`).

`f32` values are modelled as `real`. The random generator is an explicit
input: an infinite stream of draws in [0, 1) with a cursor
(`random.dfy`). Every `gen::<f32>` and `gen_range` consumes one draw, and so
does every `gen_bool(p)` except `gen_bool(1.0)`, which rand's Bernoulli
sampler answers without touching the generator. So each operation's
contract states exactly which draws it reads and where it leaves the cursor. Assertions in the source (`assert!`,
`assert_eq!`) become `requires` clauses. The two ways `from_weights` can
fail on its data (too few or too many weights) become an `Err` result.

Main results:

- `from_weights(t, w)` succeeds exactly when `|w|` is the sum of
  (1 + t[k]) · t[k+1] over adjacent pairs. It then rebuilds a network of
  topology `t` whose `weights()` is `w`. A shorter stream gives
  `NotEnoughWeights`, a longer one `TooManyWeights`. For every network `n`
  of topology `t`, `from_weights(t, n.weights()) == n`.
- The weights of `Network::random` are the generator's draws in
  serialisation order.
- `evolve` keeps the population size. Offspring `j` is `create` applied to
  the mutated crossover of two selections made from the generator as left by
  slot `j − 1`. The statistics describe the input population. When all
  input chromosomes have one length, so do all offspring.
- Mutation is proved in place against a pure specification. It leaves genes
  alone at chance 0 or coefficient 0, touches every gene at chance 1, and
  never moves a gene by more than |coeff|.
- The eye's cell index is always in range. A food at or beyond the range,
  or outside the field of view, adds nothing. Each seen food adds its
  energy, in (0, 1], to exactly one cell. Vision is additive and does not
  depend on the order of the foods.

Offspring do not inherit their parent's eye:
`AnimalIndividual::into_animal` (libs/simulation/src/animal_individual.rs:16-18)
passes only the chromosome to `Animal::from_chromosome`. The source of
`Animal::from_chromosome` is not shown; the model assumes it builds the
default eye, a brain read back from the chromosome against that eye's
topology, and satiation 0, so offspring get `Eye.Default()`.

## Model

| member | source | states |
|---|---|---|
| NeuralNetwork.Neuron.Propagate | libs/neural-network/src/neuron.rs:10-19 | needs as many inputs as weights; the output is never negative; it is bias + Σ inputs[i]·weights[i] when that sum is ≥ 0, and 0 otherwise |
| NeuralNetwork.NeuronPropagateExample | libs/neural-network/src/neuron.rs:61-80 | bias 0.5 and weights [-0.3, 0.8]: inputs [-10, -10] give 0; inputs [0.5, 1.0] give -0.3·0.5 + 0.8·1.0 + 0.5 |
| NeuralNetwork.RandomValues | libs/neural-network/src/neuron.rs:27-29 | n draws of `gen_range(-1.0..=1.0)` give n values in [-1, 1], one draw each, in order |
| NeuralNetwork.RandomValuesAt | libs/neural-network/src/neuron.rs:27-29 | value i of n draws is the generator's draw i ahead of the cursor, scaled to [-1, 1] |
| NeuralNetwork.Neuron.Random | libs/neural-network/src/neuron.rs:21-31 | exactly n weights; bias and every weight in [-1, 1]; the bias is drawn first, then the weights; 1 + n draws are consumed |
| NeuralNetwork.Layer.Propagate | libs/neural-network/src/layer.rs:9-14 | needs every neuron to take as many weights as there are inputs; one output per neuron; output i is neuron i applied to the whole input, and is ≥ 0 |
| NeuralNetwork.RandomNeurons | libs/neural-network/src/layer.rs:21-23 | `out` neurons of `in` weights each, all in [-1, 1], consuming (1 + in)·out draws |
| NeuralNetwork.LayerWeightCountProduct | libs/neural-network/src/lib.rs:59-64 | a layer of `out` neurons over `in` inputs takes (1 + in)·out values: one bias and `in` weights per neuron |
| NeuralNetwork.Layer.Random | libs/neural-network/src/layer.rs:16-26 | exactly `out` neurons, each with exactly `in` weights in [-1, 1] |
| NeuralNetwork.RandomLayers | libs/neural-network/src/lib.rs:25-28 | one layer per adjacent pair of the topology, of the pair's shape, consuming the topology's weight count of draws |
| NeuralNetwork.Network.Random | libs/neural-network/src/lib.rs:19-31 | needs at least two topology entries; builds \|t\|−1 layers, layer k with t[k+1] neurons of t[k] weights, all in [-1, 1] |
| NeuralNetwork.RandomWeightsAreDraws | libs/neural-network/src/lib.rs:19-31 | the flat weights of a random network are exactly the generator's next draws, scaled to [-1, 1], in draw order |
| NeuralNetwork.PropagateLayers | libs/neural-network/src/lib.rs:33-37 | the fold over the layers: no layers returns the input; otherwise the output has the last layer's width and is non-negative |
| NeuralNetwork.Network.Propagate | libs/neural-network/src/lib.rs:33-37 | output width is the last layer's neuron count, every output ≥ 0 |
| NeuralNetwork.FitsChains | libs/neural-network/src/lib.rs:25-37 | a network of topology t accepts inputs of width t[0], layer after layer |
| NeuralNetwork.PropagateShape | libs/neural-network/src/lib.rs:33-37 | for a network of topology t and input width t[0], propagation needs nothing more and yields t[last] non-negative values |
| NeuralNetwork.PropagateInOrder | libs/neural-network/src/lib.rs:34-36 | layers apply in order: propagating through a + b is propagating through a, then b |
| NeuralNetwork.FlatNeuronsLength | libs/neural-network/src/lib.rs:48-49 | a layer of m neurons with k weights each flattens to (1 + k)·m values |
| NeuralNetwork.Network.Weights | libs/neural-network/src/lib.rs:39-52 | for every topology t the network fits, `weights()` has Σ (1 + t[k])·t[k+1] values over adjacent pairs |
| NeuralNetwork.FlatLayersLength | libs/neural-network/src/lib.rs:46-51 | the layers of a network of topology t flatten to Σ (1 + t[k])·t[k+1] values |
| NeuralNetwork.WeightsExample | libs/neural-network/src/lib.rs:80-96 | the two one-neuron layers of the crate's test flatten to [0.1 … 0.8], bias before weights |
| NeuralNetwork.NeuronRoundTrip | libs/neural-network/src/lib.rs:49 | reading one neuron from its own bias-then-weights followed by any rest gives the neuron back and leaves the rest |
| NeuralNetwork.Neuron.FromWeights | libs/neural-network/src/lib.rs:63 | reading one neuron fails (NotEnoughWeights) exactly when fewer than 1 + n values remain; otherwise the neuron has n weights, and its bias-then-weights followed by the rest is the stream |
| NeuralNetwork.Layer.FromWeights | libs/neural-network/src/lib.rs:63 | reading one layer fails (NotEnoughWeights) exactly when fewer than (1 + in)·out values remain; otherwise the layer has `out` neurons of `in` weights, and its flat values followed by the rest are the stream |
| NeuralNetwork.NeuronsRoundTrip | libs/neural-network/src/lib.rs:48-49 | reading a layer's neurons from their flat values followed by any rest gives them back and leaves the rest |
| NeuralNetwork.LayersRoundTrip | libs/neural-network/src/lib.rs:59-64 | reading all layers of a topology from their flat values followed by any rest gives them back and leaves the rest |
| NeuralNetwork.FromWeightsOfWeights | libs/neural-network/src/lib.rs:54-70 | `from_weights(t, n.weights())` is `n` for every network n of topology t |
| NeuralNetwork.NeuronsFromWeightsShape | libs/neural-network/src/lib.rs:63 | reading one layer succeeds iff enough values remain, fails only with NotEnoughWeights, and on success the neurons flattened plus the rest are the stream |
| NeuralNetwork.LayersFromWeightsShape | libs/neural-network/src/lib.rs:59-64 | reading every layer succeeds iff the stream has at least the weight count; the layers fit t and flattened plus the rest are the stream |
| NeuralNetwork.Network.FromWeights | libs/neural-network/src/lib.rs:54-70 | needs at least two topology entries (the assert); succeeds iff \|w\| is exactly the weight count, then yields a network of topology t whose weights() is w; shorter is NotEnoughWeights, longer is TooManyWeights |
| NeuralNetwork.FromWeightsExample | libs/neural-network/src/lib.rs:102-118 | topology [3, 2] and the eight values [0.1 … 0.8] rebuild a network whose weights are those values |
| Chromosomes.Chromosome.Len | libs/generic-algorithm/src/chromosome.rs:11-13 | the number of genes |
| Chromosomes.Chromosome.Index | libs/generic-algorithm/src/chromosome.rs:27-29 | needs i < len; gives gene i |
| Chromosomes.Chromosome.Iter | libs/generic-algorithm/src/chromosome.rs:15-17 | len values, value i being chromosome[i] |
| Chromosomes.Chromosome.IntoIter | libs/generic-algorithm/src/chromosome.rs:42-44 | len values, value i being chromosome[i] |
| Chromosomes.Chromosome.FromIter | libs/generic-algorithm/src/chromosome.rs:32-36 | a chromosome of as many genes as values, gene i being value i |
| Chromosomes.FromIterIntoIter | libs/generic-algorithm/src/chromosome.rs:32-45 | collecting then iterating out gives the values back, and the other way round |
| Chromosomes.UpdateEach | libs/generic-algorithm/src/chromosome.rs:19-21 | updating every gene in place through the mutable iterator: gene i becomes f(old gene i), the length is unchanged |
| Crossover.CrossGenes | libs/generic-algorithm/src/crossover/uniform.rs:22-26 | child of the parents' length; gene i is parent a's when coin i comes up true, else parent b's; exactly one draw per gene, in index order |
| Crossover.UniformCrossover.Crossover | libs/generic-algorithm/src/crossover/uniform.rs:15-27 | needs parents of equal length; the child has that length; gene i comes from a on a true coin i, else from b; the cursor advances by the length |
| Crossover.CrossoverPicksParentGenes | libs/generic-algorithm/src/crossover/uniform.rs:25 | every child gene equals the gene at the same index of one of the parents |
| Crossover.CrossoverWithItself | libs/generic-algorithm/src/crossover/uniform.rs:25 | crossing a chromosome with itself returns it, whatever the coins |
| Mutation.PerturbationBound | libs/genetic-algorithm/src/mutation/gaussian.rs:30 | sign·coeff·u with sign ±1 and u in [0, 1) is at most \|coeff\| in size |
| Mutation.GaussianMutation.New | libs/genetic-algorithm/src/mutation/gaussian.rs:19-22 | needs chance in [0, 1]; the coefficient is stored unchecked, negative values included |
| Mutation.GaussianMutation.MutateGene | libs/genetic-algorithm/src/mutation/gaussian.rs:28-31 | sign draw always; touch draw unless the chance is 1, where `gen_bool(1.0)` draws nothing; magnitude draw only when touched, as the gene's last draw; an untouched gene is unchanged; a touched one moves by sign·coeff·u; never by more than \|coeff\| |
| Mutation.GaussianMutation.TouchedDraws | libs/genetic-algorithm/src/mutation/gaussian.rs:28-31 | a touched gene consumes two draws at chance 1 and three otherwise |
| Mutation.GaussianMutation.Mutated | libs/genetic-algorithm/src/mutation/gaussian.rs:27-32 | the genes after mutation keep their number; the stream is unchanged, only the cursor moves |
| Mutation.GaussianMutation.Mutate | libs/genetic-algorithm/src/mutation/gaussian.rs:26-33 | the in-place loop over the child's genes leaves exactly the specified mutated genes and cursor |
| Mutation.MutatedAt | libs/genetic-algorithm/src/mutation/gaussian.rs:27-32 | gene i of the result depends only on gene i and on its own draws, which start where genes 0 … i−1 left the cursor |
| Mutation.ZeroChanceKeepsGenes | libs/genetic-algorithm/src/mutation/gaussian.rs:54-81 | chance 0 leaves every gene unchanged for any coefficient, consuming two draws per gene |
| Mutation.ZeroCoefficientKeepsGenes | libs/genetic-algorithm/src/mutation/gaussian.rs:91-99 | coefficient 0 leaves every gene unchanged for any chance |
| Mutation.FullChanceCursor | libs/genetic-algorithm/src/mutation/gaussian.rs:28-30 | at chance 1 every gene consumes exactly two draws, its sign and its magnitude |
| Mutation.FullChanceTouchesAll | libs/genetic-algorithm/src/mutation/gaussian.rs:112-138 | at chance 1 every gene i moves by sign·coeff·u, with sign from draw 2i and u from draw 2i + 1 |
| Mutation.MutationIsBounded | libs/genetic-algorithm/src/mutation/gaussian.rs:12-15 | no gene moves by more than \|coeff\| |
| Individuals.TestIndividual.New | libs/genetic-algorithm/src/individual.rs:20-22 | `new(f).fitness() == f` |
| Individuals.TestIndividual.Create | libs/genetic-algorithm/src/individual.rs:27-29 | a created individual has a chromosome, and it is the one given |
| Individuals.TestIndividual.Chromosome | libs/genetic-algorithm/src/individual.rs:31-36 | needs the `WithChromosome` variant (the other panics); the individual is the one `create` builds from the chromosome returned |
| Individuals.TestIndividual.Fitness | libs/genetic-algorithm/src/individual.rs:38-43 | the sum of the genes for an individual with a chromosome, the given fitness otherwise |
| Individuals.TestIndividualImpl | libs/genetic-algorithm/src/individual.rs:25-44 | the test double's `Individual` implementation: `create(c).chromosome()` is c for every c |
| Individuals.CreatedFitnessIsGeneSum | libs/genetic-algorithm/src/individual.rs:38-43 | a created test individual's fitness is the sum of its genes; [1, 2, 4] has fitness 7 |
| Evolution.Statistics.New | libs/genetic-algorithm/src/lib.rs:75 | one entry per input individual, entry i its fitness |
| Evolution.GeneticAlgorithm.New | libs/genetic-algorithm/src/lib.rs:40-50 | the algorithm holds the given selection, crossover and mutation methods |
| Evolution.GeneticAlgorithm.Offspring | libs/genetic-algorithm/src/lib.rs:62-73 | one slot: two selections, a crossover, a mutation; the child has the parents' length and each gene is within \|coeff\| of that gene of one selected parent |
| Evolution.GeneticAlgorithm.Children | libs/genetic-algorithm/src/lib.rs:61-74 | as many child chromosomes as slots, all of the input chromosomes' common length |
| Evolution.GeneticAlgorithm.ChildrenSnoc | libs/genetic-algorithm/src/lib.rs:61-74 | one more slot appends its child to those already made and starts from the cursor they leave |
| Evolution.GeneticAlgorithm.Breed | libs/genetic-algorithm/src/lib.rs:63-72 | the loop body of `evolve`: select, cross, then mutate the child in place, giving exactly one slot's specified chromosome and cursor |
| Evolution.GeneticAlgorithm.Evolve | libs/genetic-algorithm/src/lib.rs:52-77 | needs a non-empty population whose chromosomes can be crossed; returns as many offspring as inputs, offspring j being `create` of child j; statistics of the input population; when create and chromosome round-trip, the offspring can be bred again with chromosomes of the common length |
| Evolution.OffspringBreedable | libs/genetic-algorithm/src/lib.rs:67-72 | individuals created from chromosomes of one length can be bred again, given the create/chromosome round-trip |
| Evolution.ChildAt | libs/genetic-algorithm/src/lib.rs:61-74 | slots are processed in order: child j is what one slot makes from the cursor left by slots 0 … j−1, whatever the slot count |
| Brains.Brain.Topology | libs/simulation/src/brain.rs:25-55 | three layers: cells inputs, 2·cells hidden, 2 outputs; its weight count is (cells+1)·2cells + (2cells+1)·2 |
| Brains.Brain.Random | libs/simulation/src/brain.rs:9-13 | a network of the eye's topology with every weight in [-1, 1], consuming one draw per gene |
| Brains.Brain.AsChromosome | libs/simulation/src/brain.rs:15-17 | gene i is weight i of the network's flat weights, and there are as many genes as weights |
| Brains.Brain.FromChromosome | libs/simulation/src/brain.rs:19-23 | succeeds iff the chromosome has the topology's length; the brain then has the eye's topology and its chromosome is the one given; too short or too long gives the matching error |
| Brains.BrainRoundTrip | libs/simulation/src/brain.rs:15-23 | a brain of the eye's topology survives the trip through its chromosome |
| Brains.ChromosomeLengthOfBrain | libs/simulation/src/brain.rs:25-55 | a brain of the eye's topology has a chromosome of the topology's length, 218 for the default nine-cell eye |
| Brains.RandomBrainGenes | libs/simulation/src/brain.rs:9-17 | the genes of a random brain are the generator's next draws scaled to [-1, 1], in order |
| AnimalIndividuals.Animal.AsChromosome | libs/simulation/src/animal_individual.rs:12 | an animal's chromosome has its topology's length and rebuilds its own brain |
| AnimalIndividuals.Animal.FromChromosome | libs/simulation/src/animal_individual.rs:16-18 | succeeds iff the chromosome has the default brain's length; a fresh animal with the default eye, satiation 0, and exactly that chromosome |
| AnimalIndividuals.AnimalIndividual.FromAnimal | libs/simulation/src/animal_individual.rs:9-14 | fitness is the satiation as a number, so never negative; the chromosome has the topology's length and rebuilds the animal's brain |
| AnimalIndividuals.AnimalIndividual.IntoAnimal | libs/simulation/src/animal_individual.rs:16-18 | the chromosome is passed unchanged: the animal exists iff the length fits, and then has that chromosome and satiation 0 |
| AnimalIndividuals.AnimalIndividual.Create | libs/simulation/src/animal_individual.rs:22-24 | a created individual has fitness 0 and the given chromosome |
| AnimalIndividuals.AnimalIndividual.Chromosome | libs/simulation/src/animal_individual.rs:26-28 | the stored chromosome; an individual of fitness 0 is the one `create` builds from it |
| AnimalIndividuals.AnimalIndividual.Fitness | libs/simulation/src/animal_individual.rs:30-32 | the stored fitness |
| AnimalIndividuals.AnimalIndividualImpl | libs/simulation/src/animal_individual.rs:21-33 | the `Individual` implementation: `create(c).chromosome()` is c, and every created individual has fitness 0 |
| AnimalIndividuals.AnimalRoundTrip | libs/simulation/src/animal_individual.rs:9-18 | an animal with the default eye comes back from its individual with its eye and brain, satiation reset to 0 |
| AnimalIndividuals.AnimalsBreedable | libs/simulation/src/animal_individual.rs:9-14 | the individuals of a world of default-eyed animals can be bred: every chromosome has 218 genes |
| Eyes.ToUsize | libs/simulation/src/eye.rs:89 | `as usize` of a value: 0 for anything not positive, otherwise the whole part |
| Eyes.Eye.New | libs/simulation/src/eye.rs:24-30 | needs range > 0, angle > 0 and cells > 0; the eye keeps them |
| Eyes.Eye.Cells | libs/simulation/src/eye.rs:32-34 | the number of cells, never 0 for an eye `new` accepts |
| Eyes.Eye.Default | libs/simulation/src/eye.rs:101-105 | the default eye is valid, with range 0.25, angle PI·FRAC_PI_4 and 9 cells |
| Eyes.Eye.CellIndex | libs/simulation/src/eye.rs:82-89 | the chosen cell is always < cells |
| Eyes.Eye.Vision | libs/simulation/src/eye.rs:42-97 | `cells` values, all ≥ 0; with no foods, all 0 |
| Eyes.Eye.ProcessVision | libs/simulation/src/eye.rs:36-98 | the loop with its two `continue` filters and in-place accumulation returns exactly the specified vision |
| Eyes.Eye.VisionSnoc | libs/simulation/src/eye.rs:44-95 | one more food either changes nothing (unseen) or adds its energy to its own cell |
| Eyes.Eye.EnergyBounds | libs/simulation/src/eye.rs:92 | a food nearer than the range (distances are never negative) has energy in (0, 1], and 1 when at distance 0 |
| Eyes.UnseenFoodIgnored | libs/simulation/src/eye.rs:48-66 | a food too far or outside the field of view changes no cell |
| Eyes.SeenFoodAddsToOneCell | libs/simulation/src/eye.rs:93 | a seen food adds its energy to its own cell and leaves every other cell unchanged |
| Eyes.FoodAtRangeUnseen | libs/simulation/src/eye.rs:48-52 | a food exactly at the range is not seen, whatever its direction |
| Eyes.VisionIsTotal | libs/simulation/src/eye.rs:92-93 | every cell holds the summed energy of the foods seen in that cell |
| Eyes.VisionAdditive | libs/simulation/src/eye.rs:93 | vision of two groups of foods is the sum of each group's, in either order |
| Eyes.ScaledPosition | libs/simulation/src/eye.rs:73-82 | a direction in the field of view maps into [0, cells], and reaches cells only at the right edge |
| Eyes.CellIndexClamp | libs/simulation/src/eye.rs:82-89 | the clamp acts only at the right edge, which goes to the last cell; the left edge goes to cell 0 |
| Eyes.DefaultEyeCells | libs/simulation/src/eye.rs:8-14 | with the default eye, straight ahead is cell 4 and the right edge is cell 8 |

## Left out

- `f32` rounding, NaN and infinities: values are `real`. The crate tests that compare against exact seeded vectors depend on the ChaCha8 stream and on `f32` rounding, so they are not modelled: libs/neural-network/src/neuron.rs:50-54, libs/genetic-algorithm/src/mutation/gaussian.rs:106 and 135, libs/genetic-algorithm/src/lib.rs:118-123.
- Probability distributions: only the range of each draw and the order in which draws are consumed are modelled, not how likely each value is.
- Random.GenBool: rand panics on a probability outside [0, 1]; the model compares the draw with it anyway. `GaussianMutation::new`, the only way the source builds a mutation, rejects such a chance.
- A generator's raw draws are an arbitrary stream of reals, each read through `Random.Unit`, so a value outside [0, 1) (which rand never produces) reads as 0.
- `SelectionMethod` is a function value returning an index into the population, not a trait. Traits are not used here. `RouletteWheelSelection` and its zero-fitness behaviour are not part of this model.
- `CrossoverMethod` and `MutationMethod` trait objects: the driver holds the one concrete implementation of each, `UniformCrossover` and `GaussianMutation`.
- Evolution.Statistics.New: the source of `Statistics::new` is not shown. The model defines the statistics as the snapshot of input fitnesses `evolve` hands it, not their min/max/mean.
- The `Individual` trait is a record of three functions: `fitness`, a partial `chromosome`, and `create`.
- Evolution.GeneticAlgorithm.Evolve: needs every input individual to have a chromosome, and all of them of one length. The source panics otherwise, and only once a bad individual is selected.
- Chromosomes.UpdateEach: models `iter_mut` on the array holding the genes. The `Chromosome` itself is a value.
- Mutation.GaussianMutation.Mutate: works on the array holding the child's genes; `Breed` copies the crossed chromosome into that array and back.
- The source of `Neuron::from_weights` and `Layer::from_weights` is not shown. The model defines them as the inverse of the order in which `Network::weights` emits values: bias first, then the weights, neuron by neuron, failing with NotEnoughWeights when the stream runs out.
- `Network::from_weights`: running out of weights is the `NotEnoughWeights` error and leftover weights the `TooManyWeights` error. The source panics in both cases.
- Eye geometry: the distance (`norm`) and the wrapped relative angle (`rotation_between`, `wrap`) of each food are given as inputs (`FoodSighting`).
- Animal: only its eye, brain and satiation are modelled. Position, rotation and speed are left out, and so is `into_animal`'s random-generator argument, which only feeds them.
- The source of `Animal::as_chromosome` and `Animal::from_chromosome` is not shown. The model defines the first as the brain's chromosome and assumes the second builds a default eye, a brain rebuilt from the chromosome, and satiation 0.
- The simulation step (collisions, movement, world wrap, generation counter), `World`, `Food`, `Animal::random`: only struct declarations and random initialisation exist in the source.
- The earlier copy of the algorithm in libs/generic-algorithm/src/lib.rs and its `Individual` trait: this copy is inconsistent (its `evolve` calls a `create` the trait lacks). `evolve` is modelled once, from libs/genetic-algorithm.
- `UniformCrossover::new`: it has no fields and no behaviour.
- The web front end and the WebAssembly bridge.
