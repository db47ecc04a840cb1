/** The initial population, built when no saved population can be loaded.
    The random number generator is replaced by the sequence of values it
    would have returned, in the order the source draws them. */
module PopulationFactory {
  import opened Chromosomes

  /** Builds `n` fresh units, taking each chromosome's genes from `draws` in
      row-major order, unit after unit. */
  function CreateUnits(cfg: Config, n: nat, draws: seq<real>): (pop: seq<Unit>)
    requires |draws| == n * (cfg.rows * cfg.cols)
    ensures |pop| == n && AllWellShaped(cfg, pop)
    ensures forall k :: 0 <= k < |pop| ==> !pop[k].tested && pop[k].fitness == 0.0
    ensures Genes(pop) == draws
    decreases n
  {
    if n == 0 then []
    else
      var width := cfg.rows * cfg.cols;
      assert |draws| == (n - 1) * width + width;
      var u := Fresh(Reshape(draws[..width], cfg.rows, cfg.cols));
      var rest := CreateUnits(cfg, n - 1, draws[width..]);
      assert ([u] + rest)[1..] == rest;
      assert draws[..width] + draws[width..] == draws;
      [u] + rest
  }

  /** CreatePopulation: exactly `size` untested units with fitness 0, whose
      genes are the generator's draws in the order they were made, and so
      lie in [-1, 1] as the generator's range does. */
  function CreatePopulation(cfg: Config, draws: seq<real>): (pop: seq<Unit>)
    requires |draws| == cfg.size * (cfg.rows * cfg.cols)
    requires forall k :: 0 <= k < |draws| ==> -1.0 <= draws[k] <= 1.0
    ensures Population(cfg, pop)
    ensures forall k :: 0 <= k < |pop| ==> !pop[k].tested && pop[k].fitness == 0.0
    ensures Genes(pop) == draws
    ensures forall k, i, j :: 0 <= k < |pop| && 0 <= i < cfg.rows && 0 <= j < cfg.cols
              ==> -1.0 <= pop[k].chromosome[i][j] <= 1.0
  {
    var pop := CreateUnits(cfg, cfg.size, draws);
    GenesHaveEveryGene(pop);
    pop
  }
}
