# A Dafny model of the genetic-algorithm engine

This project models the evolutionary engine of a Unity game that trains the
weights of its players' neural networks with a generational genetic
algorithm (`Assets/Scripts/GeneticAlgorithm.cs`). A population of 40 units is
kept. Each unit is a 33 x 12 chromosome matrix of doubles plus a `tested`
flag and a fitness. The engine:

- loads the population from a binary file, or creates a random one and saves
  it;
- plays the units in pairs (0,1), (2,3), ... through an external match
  simulator;
- records each pair's two fitness values and saves the whole population after
  every match;
- once every pair has played, builds the next generation. It sorts by fitness,
  shifts every fitness up by the amount of the most negative one, so the
  lowest becomes 0, and keeps the two best units (elitism). It
  fills the rest pair by pair from parents chosen by a roulette wheel without
  replacement; each pair is crossed over uniformly with probability 0.9 and
  copied otherwise.

The Dafny modules follow those parts:

| module | file | what it holds |
|---|---|---|
| `Options` | options.dfy | the `Option` type used for reads that can fail |
| `Chromosomes` | chromosomes.dfy | `Config` (rows, cols, size; `Game` is 33, 12, 40), `Matrix`, `Unit`, row-major `Flatten`/`Reshape` |
| `Generation` | generation.dfy | the C# `int` generation counter and its `++` |
| `PopulationStore` | population_store.dfy | the population file as a stream of typed tokens; `Save` and `Load` |
| `PopulationFactory` | population_factory.dfy | `CreatePopulation` |
| `EvaluationCursor` | evaluation_cursor.dfy | the pair scan of `Evaluation` and the bookkeeping of `Evaluated` |
| `RouletteWheel` | roulette.dfy | `Roulette` |
| `UniformCrossover` | crossover.dfy | `Crossover` |
| `SelectionEngine` | selection.dfy | sort, shift, elitism and the breeding loop of `Selection` |
| `GeneticAlgorithm` | genetic_algorithm.dfy | the engine's state (population, generation, cursor, file) and its steps |

Randomness is a parameter. Each call to `Random.Range` becomes a value the
caller passes in, in the order the source draws them:

- `CreatePopulation`: one gene value in [-1, 1] per gene;
- `Roulette`: a fraction `u` in [0, 1], scaled by the pool's fitness total;
- the crossover decision: one coin, compared with 0.9;
- `Crossover`: one coin per gene, compared with 0.5.

Doubles and floats are Dafny `real`s. The file is a sequence of tokens, one
per value that `BinaryWriter` writes and `BinaryReader` reads.

Four modelling choices rest on details of the code:

- The ranking calls .NET `List.Sort` with a fitness comparison (line 257).
  That sort is not stable, so the order among equal fitness values is
  unspecified. The model fixes one order, a stable insertion sort; every
  property it proves about the sort holds for any order among equal fitness
  values.
- `SavePopulation` opens the file with `File.Create` (line 103), which
  truncates it, and then writes the units one by one (lines 106-117). A save
  that fails part-way therefore leaves a partial file behind. `Save` models
  that partial file, and `FailedSaveIsRejected` shows that loading it fails.
- When every fitness in the pool is 0, `Random.Range(0f, 0f)` returns 0 and
  the walk stops at the first unit (lines 226-231). `Roulette` does the same
  (`ZeroDrawPicksFirst`), so that case picks the first unit, not a uniform
  one.
- Step 4 of `Selection` is headed by the comment "4 - Reset the fitness value
  of the copied chromosomes" (line 289), but the loop beneath it, which would
  clear every `tested` flag, is commented out (lines 290-291). Separately,
  `PrepareNextGeneration` stores the population `Selection` builds in a
  local that is then dropped (line 217). Both are recorded under "Findings".

## Model

| member | source | states |
|---|---|---|
| Generation.Inc32 | Assets/Scripts/GeneticAlgorithm.cs:213 | `generation++` on a C# `int` counts up by one and wraps from 2^31-1 to -2^31 |
| Chromosomes.Reshape | Assets/Scripts/GeneticAlgorithm.cs:74-78 | the genes read in row-major order fill a rows x cols matrix whose row-major flattening is exactly the genes read |
| Chromosomes.ReshapeFlatten | Assets/Scripts/GeneticAlgorithm.cs:74-78 | rebuilding a well-shaped chromosome from its row-major genes gives back the same chromosome |
| PopulationStore.Save | Assets/Scripts/GeneticAlgorithm.cs:100-123 | the file starts with the generation; the save succeeds exactly when the list holds at least `size` units; a successful save writes the full file length, and a failed one stops short of it |
| PopulationStore.ReadDoublesOfDoubles | Assets/Scripts/GeneticAlgorithm.cs:76-78 | reading k doubles back from k written doubles gives the same values and leaves the rest of the stream untouched |
| PopulationStore.ReadUnitsOfEncodeUnits | Assets/Scripts/GeneticAlgorithm.cs:73-84 | reading n units back from n written units gives the same chromosomes, tested flags and fitness values, in order |
| PopulationStore.Load | Assets/Scripts/GeneticAlgorithm.cs:60-98 | a load succeeds only on a file at least one full population long; it yields exactly `size` well-shaped units, and saving them with the loaded generation writes back exactly the part of the file that was read |
| PopulationStore.LoadSave | Assets/Scripts/GeneticAlgorithm.cs:60-123 | loading a saved complete population gives back the same generation and the same units, whatever follows them in the file |
| PopulationStore.TruncatedFileIsRejected | Assets/Scripts/GeneticAlgorithm.cs:60-98 | every proper prefix of a saved file makes the load fail |
| PopulationStore.FailedSaveIsRejected | Assets/Scripts/GeneticAlgorithm.cs:100-123 | the partial file a failed save leaves makes the load fail |
| PopulationFactory.CreateUnits | Assets/Scripts/GeneticAlgorithm.cs:130-147 | n fresh units whose genes, unit after unit in row-major order, are exactly the draws |
| PopulationFactory.CreatePopulation | Assets/Scripts/GeneticAlgorithm.cs:125-155 | exactly `size` well-shaped units, all untested with fitness 0, genes taken from the draws in order and so within [-1, 1] |
| EvaluationCursor.Scan | Assets/Scripts/GeneticAlgorithm.cs:162-180 | the scan stops at the smallest pair at or after the cursor whose left unit is untested, or at `size/2` when there is none; every pair it passes is tested |
| EvaluationCursor.Record | Assets/Scripts/GeneticAlgorithm.cs:193-199 | the pair at the cursor gets the left and right fitness and both tested flags; its chromosomes and every other unit are unchanged |
| EvaluationCursor.RecordExtendsTested | Assets/Scripts/GeneticAlgorithm.cs:193-205 | after recording, every pair up to and including the cursor is tested, which makes advancing the cursor sound |
| EvaluationCursor.ScanSkipsTested | Assets/Scripts/GeneticAlgorithm.cs:162-166 | scanning across tested pairs lands where scanning from after them does |
| EvaluationCursor.ScanFromStart | Assets/Scripts/GeneticAlgorithm.cs:162-166 | when every pair before the cursor is tested, a scan from pair 0 stops where the scan from the cursor does |
| EvaluationCursor.ScanFindsFirstUntested | Assets/Scripts/GeneticAlgorithm.cs:162-186 | with pairs 0 .. k-1 tested and pair k untested, a scan from pair 0 stops at k |
| RouletteWheel.Walk | Assets/Scripts/GeneticAlgorithm.cs:229-237 | the walk stops at the first unit where the drawn value minus the running fitness total is at most epsilon; when it finds none, the value stays above epsilon at every unit |
| RouletteWheel.WalkFinds | Assets/Scripts/GeneticAlgorithm.cs:223-237 | a drawn value no larger than the pool's total always stops the walk |
| RouletteWheel.Roulette | Assets/Scripts/GeneticAlgorithm.cs:220-239 | the chosen unit is the first one where the walk stops; it is removed and the others keep their order; the pool loses exactly that unit; a non-empty non-negative pool always yields a unit |
| RouletteWheel.ZeroDrawPicksFirst | Assets/Scripts/GeneticAlgorithm.cs:221-231 | a draw of 0, in particular any draw from a pool whose fitness values are all 0, picks the first unit |
| UniformCrossover.Crossover | Assets/Scripts/GeneticAlgorithm.cs:296-318 | both children are untested with fitness 0; at every gene the children hold the two parents' values, kept when the coin is below 0.5 and swapped otherwise, never blended |
| UniformCrossover.CrossoverTwiceRestores | Assets/Scripts/GeneticAlgorithm.cs:303-313 | crossing the children again with the same coins gives back the parents |
| SelectionEngine.InsertKeepsDescending | Assets/Scripts/GeneticAlgorithm.cs:257 | inserting a unit into a list sorted by descending fitness keeps it sorted |
| SelectionEngine.SortDescending | Assets/Scripts/GeneticAlgorithm.cs:257 | the result is a permutation of the population, sorted by non-increasing fitness |
| SelectionEngine.Shift | Assets/Scripts/GeneticAlgorithm.cs:263-265 | when the last fitness is negative, every fitness moves by the same amount and the last becomes 0; otherwise nothing changes; chromosomes and flags are kept, and a descending list becomes descending and non-negative |
| SelectionEngine.ShiftInPlace | Assets/Scripts/GeneticAlgorithm.cs:263-265 | the source's loop, which rereads the last unit's fitness on every pass, computes the same list as `Shift` |
| SelectionEngine.Ranked | Assets/Scripts/GeneticAlgorithm.cs:257-265 | after the sort and the shift, fitness is non-increasing and non-negative, and every chromosome keeps its shape |
| SelectionEngine.RankedFromInput | Assets/Scripts/GeneticAlgorithm.cs:257-265 | every ranked unit has the chromosome and tested flag of an input unit |
| SelectionEngine.InputInRanked | Assets/Scripts/GeneticAlgorithm.cs:257-265 | every input unit's chromosome and tested flag appear in the ranking |
| SelectionEngine.Spin | Assets/Scripts/GeneticAlgorithm.cs:220-239 | one roulette call: the drawn fraction of the pool's total stops the walk at the returned index, and the unit there is returned and removed from the pool |
| SelectionEngine.Mate | Assets/Scripts/GeneticAlgorithm.cs:275-286 | the first parent is the unit where the first draw stops the walk over the pool; it is removed, and the second parent is where the second draw stops the walk over what remains; it is removed too. When the coin is at least 0.9 the two units appended are those parents, in that order; below 0.9 they are the uniform crossover of exactly those parents under the pass's gene coins |
| SelectionEngine.Breed | Assets/Scripts/GeneticAlgorithm.cs:272-287 | pass k takes its parents by the roulette rule from the pool as the earlier passes left it, and appends the copy or the crossover its coin decides; after n passes 2n units were appended and 2n removed |
| SelectionEngine.CopiesConservePool | Assets/Scripts/GeneticAlgorithm.cs:272-286 | when no pass crosses over, the units appended and the units left in the pool together are exactly the pool the loop started from |
| SelectionEngine.Selection | Assets/Scripts/GeneticAlgorithm.cs:241-294 | exactly `size` units; the first two are the top two ranked units; the later units are what the roulette passes breed from the whole ranked population, drawn without replacement in draw order; the pool never runs empty and two units are left over |
| SelectionEngine.ElitesAreBest | Assets/Scripts/GeneticAlgorithm.cs:257-269 | the first elite is at least as fit as every ranked unit, and the second at least as fit as every ranked unit except the first |
| SelectionEngine.EliteIsFittest | Assets/Scripts/GeneticAlgorithm.cs:257-268 | the first elite has the chromosome of an input unit of the largest fitness |
| SelectionEngine.EliteCanBeDrawnAgain | Assets/Scripts/GeneticAlgorithm.cs:268-285 | the elites stay in the roulette pool: a first draw of 0 without crossover copies the best unit again, so the next population holds it twice |
| GeneticAlgorithm.Start | Assets/Scripts/GeneticAlgorithm.cs:43-58 | a file that loads gives the engine its population and generation; otherwise a fresh population at generation 0 is created and saved; either way the engine is valid, the file holds its state, and the cursor is at pair 0 |
| GeneticAlgorithm.Evaluation | Assets/Scripts/GeneticAlgorithm.cs:157-191 | only the cursor moves, past tested pairs only; at an untested pair it hands over the left then the right chromosome; it reports completion exactly when the cursor reaches `size/2`, and then every pair is tested |
| GeneticAlgorithm.Evaluated | Assets/Scripts/GeneticAlgorithm.cs:193-209 | the pair at the cursor is recorded, the file then holds the new population and the unchanged generation, and the cursor advances by one |
| GeneticAlgorithm.PrepareNextGeneration | Assets/Scripts/GeneticAlgorithm.cs:211-218 | the generation counter moves on, but the engine's list becomes the two units the roulette left over; the cursor and the file stay as they were |
| GeneticAlgorithm.NextPopulationDiscarded | Assets/Scripts/GeneticAlgorithm.cs:211-218 | for any population larger than two, the engine left by the turnover holds neither a complete population nor a file that matches it |
| GeneticAlgorithm.ElitesSkippedWithoutReset | Assets/Scripts/GeneticAlgorithm.cs:289-291 | without the tested reset, the population built from a fully evaluated one starts with a tested elite, so its evaluation would skip pair 0 |
| GeneticAlgorithm.ResetTested | Assets/Scripts/GeneticAlgorithm.cs:289-291 | every unit becomes untested; chromosomes and fitness values are kept |
| GeneticAlgorithm.AdvanceGeneration | Assets/Scripts/GeneticAlgorithm.cs:211-218 | the turnover installs Selection's population with every unit untested, advances the generation, returns the cursor to pair 0 and saves; the engine is valid and matches its file, and the elites keep the top two ranked chromosomes |
| GeneticAlgorithm.NewGenerationStartsAtFirstPair | Assets/Scripts/GeneticAlgorithm.cs:157-186 | after the turnover, evaluation starts with pair 0, the elites included |
| GeneticAlgorithm.RestartResumes | Assets/Scripts/GeneticAlgorithm.cs:43-58 | restarting from the last file gives back the same population and generation, and the first evaluation then stops at the pair the running engine would have played next |

## Left out

- The Unity lifecycle and scheduling are left out: `MonoBehaviour`, the `Invoke` timers and the `TurnManager` calls (`ResetGame`, `SetNeuralNetworkWeights`, `BeginGame`). The engine's steps are functions the caller invokes, and the match result enters as the two fitness arguments of `Evaluated`.
- File-system access is left out: the path, `File.Exists`, opening streams and I/O exceptions. `Start` receives the file's contents, or `None` when there is none, and each step returns the file it would have written.
- `print` logging and the commented-out code of `Selection` are not modelled, except for the tested reset, which the corrected turnover applies.
- IEEE float32 and float64 rounding are not modelled. Fitness and genes are exact reals, so the epsilon comparison in `Roulette` is exact.
- The distributions of `Random.Range` are not modelled. Statistical properties such as roulette proportionality cannot be proved deductively; only the range of each draw is assumed.
- A `CreatePopulation` that throws part-way is not modelled. Its loop cannot fail except by running out of memory.
- A failed `LoadPopulation` leaves units it has read in the list and the generation it has read in the field. The model does not keep that partial state, because `Start` always follows a failed load with `CreatePopulation`, which clears the list and resets the generation to 0.
- C# reference aliasing is not modelled. Units are values, so the elite copied into the next population and the same unit left in the roulette pool are two equal values rather than one shared object.
- `Evaluated` called with the cursor past the last pair would throw an index exception in the source. The model requires a cursor below `size/2`.
- PopulationStore.Load: the file is a stream of typed tokens, so a value of the wrong kind makes the read fail. The source's `BinaryReader` would instead reinterpret the bytes, so a file whose bytes line up differently is rejected here where the source might read garbage.
- SelectionEngine.SortDescending: .NET `List.Sort` is unstable and leaves the order of equal fitness values unspecified. The model fixes one order (stable insertion), so statements about exactly which of two equally fit units becomes an elite hold for that order only. Descending order and the permutation hold for any sort.

## Findings

| source | as written | input that shows it | evidently intended | confidence | as-written member | corrected member |
|---|---|---|---|---|---|---|
| Assets/Scripts/GeneticAlgorithm.cs:211-218 | `Selection` returns the next population into a local that is then dropped; the engine's list keeps only the two units the roulette left in the pool, the generation counter moves on, nothing is saved and the cursor stays at `size/2` | any completed generation with `size` = 40: afterwards the list holds 2 units and the file still records the previous generation (GeneticAlgorithm.NextPopulationDiscarded) | the population `Selection` builds replaces the old one, is saved with the new generation, and evaluation restarts at pair 0 | not executed | GeneticAlgorithm.PrepareNextGeneration | GeneticAlgorithm.AdvanceGeneration |
| Assets/Scripts/GeneticAlgorithm.cs:289-291 | the reset of the `tested` flags is commented out, so the elites enter the next population still marked tested | any fully evaluated population: the first elite is tested, so the scan of the new population passes pair 0 and the elites keep last generation's shifted fitness (GeneticAlgorithm.ElitesSkippedWithoutReset) | every unit entering a new generation is untested, so evaluation starts at pair 0 | not executed | SelectionEngine.Selection | GeneticAlgorithm.NewGenerationStartsAtFirstPair |
