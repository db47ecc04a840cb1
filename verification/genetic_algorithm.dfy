/** The engine as a state machine: start-up (load or create), the
    evaluation scan, the recording of a match result, and the turnover to
    the next generation. The match itself, the timers that schedule these
    steps, and the file system are outside: a step receives what it would
    have read and returns what it would have written. */
module GeneticAlgorithm {
  import opened Options
  import opened Chromosomes
  import opened Generation
  import opened PopulationStore
  import opened PopulationFactory
  import opened EvaluationCursor
  import opened SelectionEngine

  /** The engine's fields: the population, the generation counter, the
      evaluation cursor (actualIndex) and the population file as it was last
      written. */
  datatype Engine = Engine(population: seq<Unit>, generation: Int32, cursor: nat, disk: seq<Token>)

  /** The engine's invariant between steps: a complete population, a cursor
      within the pairs, and every pair before the cursor evaluated. */
  predicate Valid(cfg: Config, e: Engine) {
    && ValidConfig(cfg)
    && Population(cfg, e.population)
    && e.cursor <= Pairs(cfg)
    && TestedBelow(e.population, e.cursor)
  }

  /** The file holds exactly the population and generation in memory. */
  predicate Persisted(cfg: Config, e: Engine) {
    Load(cfg, e.disk) == Some(Snapshot(e.population, e.generation))
  }

  /** Start: load the population file if there is one and it reads back;
      otherwise create a fresh population at generation 0 and save it. The
      cursor starts at the first pair either way. */
  function Start(cfg: Config, file: Option<seq<Token>>, draws: seq<real>): (e: Engine)
    requires ValidConfig(cfg)
    requires |draws| == cfg.size * (cfg.rows * cfg.cols)
    requires forall k :: 0 <= k < |draws| ==> -1.0 <= draws[k] <= 1.0
    ensures Valid(cfg, e) && Persisted(cfg, e) && e.cursor == 0
    ensures file.Some? && Load(cfg, file.value).Some? ==>
              && e.population == Load(cfg, file.value).value.population
              && e.generation == Load(cfg, file.value).value.generation
              && e.disk == file.value
    ensures file.None? || Load(cfg, file.value).None? ==>
              && e.generation == 0 && Genes(e.population) == draws
              && forall k :: 0 <= k < |e.population| ==> !e.population[k].tested
  {
    match if file.Some? then Load(cfg, file.value) else None
    case Some(snapshot) =>
      Engine(snapshot.population, snapshot.generation, 0, file.value)
    case None =>
      var pop := CreatePopulation(cfg, draws);
      LoadSave(cfg, pop, 0, []);
      assert Save(cfg, pop, 0).file + [] == Save(cfg, pop, 0).file;
      Engine(pop, 0, 0, Save(cfg, pop, 0).file)
  }

  /** What Evaluation leads to: a match between the pair at the cursor, or
      the end of the generation's evaluation. */
  datatype Outcome =
    | Match(state: Engine, left: Matrix, right: Matrix)
    | Complete(state: Engine)

  /** Evaluation: moves the cursor past every evaluated pair. It stops at
      the first pair not yet evaluated and hands its two chromosomes, left
      then right, to the match; past the last pair it reports that the
      generation is complete. Nothing but the cursor changes. */
  function Evaluation(cfg: Config, e: Engine): (r: Outcome)
    requires Valid(cfg, e)
    ensures Valid(cfg, r.state) && r.state == e.(cursor := r.state.cursor)
    ensures e.cursor <= r.state.cursor
    ensures forall j :: e.cursor <= j < r.state.cursor ==> LeftTested(e.population, j)
    ensures r.Complete? <==> r.state.cursor == Pairs(cfg)
    ensures r.Complete? ==> forall j :: 0 <= j < Pairs(cfg) ==> LeftTested(e.population, j)
    ensures r.Match? ==>
              && !LeftTested(e.population, r.state.cursor)
              && r.left == e.population[2 * r.state.cursor].chromosome
              && r.right == e.population[2 * r.state.cursor + 1].chromosome
  {
    var k := Scan(cfg, e.population, e.cursor);
    var next := e.(cursor := k);
    if k == Pairs(cfg) then Complete(next)
    else Match(next, e.population[2 * k].chromosome, e.population[2 * k + 1].chromosome)
  }

  /** Evaluated: the match's two fitness values go to the pair at the cursor,
      left then right, both units are marked tested, the whole population is
      saved, and the cursor moves to the next pair. */
  function Evaluated(cfg: Config, e: Engine, left: real, right: real): (r: Engine)
    requires Valid(cfg, e) && e.cursor < Pairs(cfg)
    ensures Valid(cfg, r) && Persisted(cfg, r)
    ensures r.cursor == e.cursor + 1 && r.generation == e.generation
    ensures r.population == Record(cfg, e.population, e.cursor, left, right)
  {
    var pop := Record(cfg, e.population, e.cursor, left, right);
    RecordExtendsTested(cfg, e.population, e.cursor, left, right);
    assert AllWellShaped(cfg, pop) by {
      forall j | 0 <= j < |pop|
        ensures WellShaped(cfg, pop[j])
      {
        assert WellShaped(cfg, e.population[j]);
      }
    }
    LoadSave(cfg, pop, e.generation, []);
    assert Save(cfg, pop, e.generation).file + [] == Save(cfg, pop, e.generation).file;
    Engine(pop, e.generation, e.cursor + 1, Save(cfg, pop, e.generation).file)
  }

  /** PrepareNextGeneration as the source has it: the generation counter
      moves on and Selection runs, but the population it builds is dropped.
      The engine keeps the list Selection worked on, which holds only the
      two units the roulette did not draw; the cursor stays past the last
      pair and nothing is saved. */
  function PrepareNextGeneration(cfg: Config, e: Engine, draws: seq<Draw>): (r: Engine)
    requires Valid(cfg, e) && e.cursor == Pairs(cfg)
    requires |draws| == cfg.size / 2 - 1
    requires forall k :: 0 <= k < |draws| ==> ValidDraw(cfg, draws[k])
    ensures r.generation == Inc32(e.generation)
    ensures r.population == Selection(cfg, e.population, draws).leftover
    ensures |r.population| == 2
    ensures r.cursor == e.cursor && r.disk == e.disk
  {
    var selected := Selection(cfg, e.population, draws);
    Engine(selected.leftover, Inc32(e.generation), e.cursor, e.disk)
  }

  /** On every run of a population larger than two, the engine left by
      PrepareNextGeneration has lost its population: two units instead of
      `size`, and a file that still records the previous generation. */
  lemma NextPopulationDiscarded(cfg: Config, e: Engine, draws: seq<Draw>)
    requires Valid(cfg, e) && Persisted(cfg, e) && e.cursor == Pairs(cfg) && cfg.size > 2
    requires |draws| == cfg.size / 2 - 1
    requires forall k :: 0 <= k < |draws| ==> ValidDraw(cfg, draws[k])
    ensures !Valid(cfg, PrepareNextGeneration(cfg, e, draws))
    ensures !Persisted(cfg, PrepareNextGeneration(cfg, e, draws))
  {
    var r := PrepareNextGeneration(cfg, e, draws);
    assert Load(cfg, r.disk).value.generation == e.generation != r.generation;
  }

  /** Without the tested reset, the population Selection builds from a
      fully evaluated one starts with an elite that is still marked tested,
      so evaluating it would skip the first pair and the elites would keep
      their shifted fitness from the previous generation. */
  lemma ElitesSkippedWithoutReset(cfg: Config, pop: seq<Unit>, draws: seq<Draw>)
    requires ValidConfig(cfg) && Population(cfg, pop)
    requires forall k :: 0 <= k < |pop| ==> pop[k].tested
    requires |draws| == cfg.size / 2 - 1
    requires forall k :: 0 <= k < |draws| ==> ValidDraw(cfg, draws[k])
    ensures LeftTested(Selection(cfg, pop, draws).next, 0)
    ensures Scan(cfg, Selection(cfg, pop, draws).next, 0) > 0
  {
    var sorted := SortDescending(pop);
    var j := IndexOf(sorted[0], pop);
    assert Ranked(cfg, pop)[0].tested;
  }

  /** Every unit marked untested, as the commented-out step 4 of Selection
      would have done. */
  function ResetTested(units: seq<Unit>): (r: seq<Unit>)
    ensures |r| == |units|
    ensures forall k :: 0 <= k < |r| ==> !r[k].tested
    ensures forall k :: 0 <= k < |r| ==> r[k].chromosome == units[k].chromosome && r[k].fitness == units[k].fitness
  {
    seq(|units|, k requires 0 <= k < |units| => units[k].(tested := false))
  }

  /** The generation turnover the engine evidently intends: the population
      Selection built replaces the old one with every unit untested, the
      generation counter moves on, the cursor returns to the first pair and
      the new population is saved. The two elites keep the chromosomes of
      the two best ranked units. */
  function AdvanceGeneration(cfg: Config, e: Engine, draws: seq<Draw>): (r: Engine)
    requires Valid(cfg, e) && e.cursor == Pairs(cfg)
    requires |draws| == cfg.size / 2 - 1
    requires forall k :: 0 <= k < |draws| ==> ValidDraw(cfg, draws[k])
    ensures Valid(cfg, r) && Persisted(cfg, r)
    ensures r.generation == Inc32(e.generation) && r.cursor == 0
    ensures forall k :: 0 <= k < |r.population| ==> !r.population[k].tested
    ensures r.population[0].chromosome == Ranked(cfg, e.population)[0].chromosome
    ensures r.population[1].chromosome == Ranked(cfg, e.population)[1].chromosome
  {
    var selected := Selection(cfg, e.population, draws);
    var next := ResetTested(selected.next);
    var generation := Inc32(e.generation);
    ResetSaved(cfg, selected.next, generation);
    Engine(next, generation, 0, Save(cfg, next, generation).file)
  }

  /** A complete population with every unit marked untested is still
      complete, and saving it writes a file that loads back to it. */
  lemma ResetSaved(cfg: Config, units: seq<Unit>, generation: Int32)
    requires Population(cfg, units)
    ensures Population(cfg, ResetTested(units))
    ensures Load(cfg, Save(cfg, ResetTested(units), generation).file) == Some(Snapshot(ResetTested(units), generation))
  {
    var next := ResetTested(units);
    forall k | 0 <= k < |next|
      ensures WellShaped(cfg, next[k])
    {
      assert WellShaped(cfg, units[k]);
    }
    LoadSave(cfg, next, generation, []);
    assert Save(cfg, next, generation).file + [] == Save(cfg, next, generation).file;
  }

  /** After the turnover the whole new population is played again from the
      first pair, elites included. */
  lemma NewGenerationStartsAtFirstPair(cfg: Config, e: Engine, draws: seq<Draw>)
    requires Valid(cfg, e) && e.cursor == Pairs(cfg)
    requires |draws| == cfg.size / 2 - 1
    requires forall k :: 0 <= k < |draws| ==> ValidDraw(cfg, draws[k])
    ensures Evaluation(cfg, AdvanceGeneration(cfg, e, draws)).Match?
    ensures Evaluation(cfg, AdvanceGeneration(cfg, e, draws)).state.cursor == 0
  {
    var r := AdvanceGeneration(cfg, e, draws);
    assert !LeftTested(r.population, 0);
  }

  /** Crash recovery: restarting from the file the engine last wrote gives
      back the same population and generation with the cursor at the first
      pair, and the first scan then stops at the very pair the running
      engine would have played next. No evaluated pair is played twice. */
  lemma RestartResumes(cfg: Config, e: Engine, draws: seq<real>)
    requires Valid(cfg, e) && Persisted(cfg, e)
    requires |draws| == cfg.size * (cfg.rows * cfg.cols)
    requires forall k :: 0 <= k < |draws| ==> -1.0 <= draws[k] <= 1.0
    ensures Start(cfg, Some(e.disk), draws) == e.(cursor := 0)
    ensures Evaluation(cfg, Start(cfg, Some(e.disk), draws)) == Evaluation(cfg, e)
  {
    ScanFromStart(cfg, e.population, e.cursor);
  }
}
