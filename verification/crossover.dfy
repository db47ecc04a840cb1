/** Uniform crossover. The generator's per-gene draw `Random.Range(0, 1)` is
    modelled as a matrix of coins, one per gene. */
module UniformCrossover {
  import opened Chromosomes

  /** A gene stays with its parent when its coin is below this. */
  const ExchangeProbability: real := 0.5

  /** The two children of a crossover, in order. */
  datatype Offspring = Offspring(first: Unit, second: Unit)

  /** At every gene, `c1` and `c2` hold the values of `a` and `b` at that
      gene, in that order or swapped, and never anything else. */
  predicate GeneWise(c1: Matrix, c2: Matrix, a: Matrix, b: Matrix, rows: nat, cols: nat) {
    && IsShape(c1, rows, cols) && IsShape(c2, rows, cols)
    && IsShape(a, rows, cols) && IsShape(b, rows, cols)
    && forall i, j :: 0 <= i < rows && 0 <= j < cols ==>
         || (c1[i][j] == a[i][j] && c2[i][j] == b[i][j])
         || (c1[i][j] == b[i][j] && c2[i][j] == a[i][j])
  }

  /** Crossover: both children are fresh (untested, fitness 0); at a gene
      whose coin is below ExchangeProbability the first child keeps the
      first parent's value and the second the second's, and otherwise the
      two values are exchanged. */
  function Crossover(cfg: Config, a: Matrix, b: Matrix, coins: Matrix): (r: Offspring)
    requires IsShape(a, cfg.rows, cfg.cols) && IsShape(b, cfg.rows, cfg.cols)
    requires IsShape(coins, cfg.rows, cfg.cols)
    ensures !r.first.tested && r.first.fitness == 0.0
    ensures !r.second.tested && r.second.fitness == 0.0
    ensures GeneWise(r.first.chromosome, r.second.chromosome, a, b, cfg.rows, cfg.cols)
    ensures forall i, j :: 0 <= i < cfg.rows && 0 <= j < cfg.cols && coins[i][j] < ExchangeProbability ==>
              r.first.chromosome[i][j] == a[i][j] && r.second.chromosome[i][j] == b[i][j]
    ensures forall i, j :: 0 <= i < cfg.rows && 0 <= j < cfg.cols && coins[i][j] >= ExchangeProbability ==>
              r.first.chromosome[i][j] == b[i][j] && r.second.chromosome[i][j] == a[i][j]
  {
    var first := seq(cfg.rows, i requires 0 <= i < cfg.rows =>
      seq(cfg.cols, j requires 0 <= j < cfg.cols => if coins[i][j] < ExchangeProbability then a[i][j] else b[i][j]));
    var second := seq(cfg.rows, i requires 0 <= i < cfg.rows =>
      seq(cfg.cols, j requires 0 <= j < cfg.cols => if coins[i][j] < ExchangeProbability then b[i][j] else a[i][j]));
    Offspring(Fresh(first), Fresh(second))
  }

  /** Crossing the two children again with the same coins gives back the
      parents: every gene was either kept or exchanged, and exchanging twice
      restores it. */
  lemma CrossoverTwiceRestores(cfg: Config, a: Matrix, b: Matrix, coins: Matrix)
    requires IsShape(a, cfg.rows, cfg.cols) && IsShape(b, cfg.rows, cfg.cols)
    requires IsShape(coins, cfg.rows, cfg.cols)
    ensures var o := Crossover(cfg, a, b, coins);
            Crossover(cfg, o.first.chromosome, o.second.chromosome, coins) == Offspring(Fresh(a), Fresh(b))
  {
    var o := Crossover(cfg, a, b, coins);
    var o' := Crossover(cfg, o.first.chromosome, o.second.chromosome, coins);
    assert o'.first.chromosome == a by {
      forall i | 0 <= i < cfg.rows
        ensures o'.first.chromosome[i] == a[i]
      {
      }
    }
    assert o'.second.chromosome == b by {
      forall i | 0 <= i < cfg.rows
        ensures o'.second.chromosome[i] == b[i]
      {
      }
    }
  }
}
