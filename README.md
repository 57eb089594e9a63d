# Differential Evolution engine: seed population, limits and pre-flight check

This project models the setup and validation layer of the `DiffEvo` class of a
C++ Differential Evolution optimiser (`diff_evo.cpp`). The class owns a seed
population of individuals (`de_t`: a cost, a weight vector, and minimum and
maximum limit vectors) and a random source. Before any strategy runs, it:

- builds the seed population from a dimension count and a population size,
  with weights drawn uniformly from [0,1) and cost `DBL_MAX`;
- replaces or returns the seed population wholesale;
- attaches per-dimension minimum and maximum limits to every individual, by
  copying one vector or by broadcasting one scalar, rejecting bad arguments
  with `std::invalid_argument`;
- checks that the population is ready: a population exists, individual 0 has
  both limit vectors, and no minimum exceeds its maximum.

Modules:

- `Structures` (structures.dfy): the `Individual` record, `DBL_MAX`, the seed
  shape `IsSeed`, and `Flatten`, the weights of a population read in order.
- `Random` (random.dfy): the random source as a class over a stream of draws
  in [0,1) given at construction.
- `Bounds` (bounds.dfy): what the limit setters do to a population, as
  functions, with lemmas that compare the vector and scalar forms.
- `Validator` (validator.dfy): the check as a function (`InitTest`), its
  conditions as a predicate (`ReadyToOptimize`), and lemmas about the check
  after each kind of setter.
- `DiffEvoEngine` (diff_evo.dfy): the `DiffEvo` class. Its field
  `initialPopulation` is the seed population; each method is proved against
  the functions above. `BenchmarkSetup` replays the driver's setup sequence.

Behaviour of the code that the model keeps as written:

- The seed cost is `DBL_MAX`, the largest finite double, not an infinity.
- The scalar setters size each individual's limits by that individual's own
  weight length. The vector setters compare the vector's length with
  individual 0's weight length only.
- The check inspects individual 0 only. It scans the indices of its minimum
  limits, not every index of every individual.

## Model

| member | source | states |
|---|---|---|
| `Random.UniformSource.constructor` | diff_evo.cpp:11 | the generator starts at the first draw of the stream it is given |
| `Random.UniformSource.Next` | diff_evo.cpp:24 | a draw is the next value of the stream, lies in [0,1), and advances the state by one |
| `DiffEvoEngine.DiffEvo.constructor` | diff_evo.cpp:11 | a new engine has no seed population and a fresh generator at the start of its stream |
| `DiffEvoEngine.DiffEvo.GetInitPopulation` | diff_evo.cpp:13-15 | returns exactly the seed population and changes nothing |
| `DiffEvoEngine.DiffEvo.SetInitPopulation` | diff_evo.cpp:31-33 | the seed population becomes exactly the argument, unvalidated, so a later read returns it |
| `DiffEvoEngine.DiffEvo.GenerateInitPopulation` | diff_evo.cpp:17-29 | the new seed population has exactly N individuals, each with D weights, cost `DBL_MAX` and empty limits; its weights, in order, are exactly the draws taken during the call; every weight lies in [0,1) |
| `Structures.FlattenContains` | diff_evo.cpp:23-26 | every weight component of every individual is one of the population's flattened draws, which carries the [0,1) range of the draws to each weight |
| `DiffEvoEngine.DiffEvo.AddMinLimits` | diff_evo.cpp:35-50 | fails with an empty vector first, then with no population, then with a length different from individual 0's weight length, leaving the population unchanged; it succeeds exactly when none of these holds, and then every individual's minimum limits become the vector and nothing else changes |
| `DiffEvoEngine.DiffEvo.AddMinLimitsScalar` | diff_evo.cpp:52-63 | fails only when there is no population, leaving it unchanged; otherwise each individual's minimum limits become the scalar repeated once per weight of that individual, and nothing else changes |
| `DiffEvoEngine.DiffEvo.AddMaxLimits` | diff_evo.cpp:65-80 | the same three failures in the same order for the maximum limits; it succeeds exactly when none holds, and then every individual's maximum limits become the vector and nothing else changes |
| `DiffEvoEngine.DiffEvo.AddMaxLimitsScalar` | diff_evo.cpp:82-94 | fails only when there is no population; otherwise each individual's maximum limits become the scalar repeated once per weight of that individual |
| `DiffEvoEngine.DiffEvo.AssignLimits` | diff_evo.cpp:48-49 | the in-place pass over the population writes the vector into every individual's limits on one side and changes nothing else |
| `DiffEvoEngine.DiffEvo.BroadcastLimits` | diff_evo.cpp:58-62 | the in-place pass resizes each individual's limits on one side to its weight length and fills them with the scalar |
| `Bounds.Resized` | diff_evo.cpp:59 | `resize` gives the requested length, keeps the existing prefix and pads with zeros |
| `DiffEvoEngine.FillWith` | diff_evo.cpp:60-61 | overwriting every entry with a value gives a vector of the same length holding only that value |
| `Structures.Individual.WithLimits` | diff_evo.cpp:49 | replacing one limit vector of an individual keeps its cost, its weights and its other limit vector |
| `Bounds.BroadcastIsAssignOfConstant` | diff_evo.cpp:43-62 | when all weight vectors have one length D, the scalar setter equals the vector setter given D copies of the scalar |
| `Bounds.OverloadsDisagreeOnRaggedPopulation` | diff_evo.cpp:43-59 | for every population and either side: a vector the vector setter accepts (as long as individual 0's weights) leaves each individual whose weight length differs from individual 0's with limits of the wrong length, while the scalar setter gives every individual limits as long as its own weights |
| `Bounds.AssignSidesCommute` | diff_evo.cpp:48-79 | setting minimum and maximum limits by vector commute, and together change only those two fields of each individual |
| `Bounds.AssignOverwrites` | diff_evo.cpp:48-49 | setting one side's limits twice keeps only the second vector |
| `Validator.ScanLimits` | diff_evo.cpp:113-121 | the index loop returns the first index whose minimum exceeds its maximum, with both values, or the first index with no maximum, and returns ready exactly when every index of the minimum limits is covered and ordered |
| `Validator.InitTest` | diff_evo.cpp:96-124 | the check fails first for an empty population, then for empty minimum limits of individual 0, then for its empty maximum limits, then at the first inverted index with both values; it passes exactly when `ReadyToOptimize` holds |
| `DiffEvoEngine.DiffEvo.OptimizeInitTest` | diff_evo.cpp:96-124 | the reading method, with its index loop, returns exactly the verdict of `InitTest` on the seed population and modifies nothing |
| `Validator.OnlyFirstIndividualInspected` | diff_evo.cpp:103-118 | two non-empty populations that agree on individual 0 get the same verdict |
| `Validator.SeedPopulationNotReady` | diff_evo.cpp:103-106 | a freshly generated population fails the check for its missing minimum limits |
| `Validator.BroadcastLimitsReadiness` | diff_evo.cpp:52-124 | after the scalar setters with lo and hi, the check passes exactly when lo <= hi, reports index 0 with lo and hi otherwise, and reports missing minimum limits when individual 0 has no weights |
| `Validator.AssignedLimitsReadiness` | diff_evo.cpp:35-124 | after the vector setters with non-empty lo and hi, the check passes exactly when hi covers lo index by index, and otherwise reports the first offending index |
| `DiffEvoEngine.BenchmarkSetup` | main.cpp:93-96 | seeding with at least one individual and one dimension, then the scalar setters with lo <= hi, always leads to a passing check |

## Left out

- The strategies `Rand1`, `Best1` and `jDE` (diff_evo.h:26-39): their bodies are in `diff_evo.tpp`, which is not part of this model, so mutation, crossover, clamping, evaluation and rate adaptation are not modelled.
- The internals of `std::random_device`, `std::mt19937` and `std::uniform_real_distribution`: the source is a stream of draws in [0,1) handed to the constructor, so no statistical property of the draws is stated.
- The text of the error messages, including the `std::format` output of the limit check: each failure is a variant carrying the data the message prints.
- Floating point: doubles are reals, so NaN limits (for which `min > max` is false and the check passes) and rounding are not modelled.
- `size_t` bounds on dimensions and population size: both are unbounded naturals.
- References and copies: `GetInitPopulation` returns a reference in the source and a value here; nothing in the model can alias the seed population.
- Reading `max_limits` past its end: where the source indexes it beyond its end (individual 0 has fewer maximum than minimum limits, reachable only through `SetInitPopulation`), the behaviour is undefined in C++; the model reports it as its own outcome, `MaxLimitMissing`, at the first such index.
- The report writer, the plotting code and the benchmark objective functions (main.cpp, test_functions.cpp): input/output and numeric callbacks outside the engine.
