/** The data model shared by every part of the genetic algorithm: the fixed
    dimensions of a run, chromosome matrices and population units. */
module Chromosomes {

  /** The compile-time dimensions of a run: a chromosome is a `rows` x `cols`
      matrix (network inputs by network outputs) and a population holds
      `size` units, evaluated in pairs (0,1), (2,3), ... */
  datatype Config = Config(rows: nat, cols: nat, size: nat)

  /** NUMBER_INPUTS, NUMBER_OUTPUTS and POPULATION_SIZE of the game. */
  const Game: Config := Config(33, 12, 40)

  /** Units pair up for evaluation and selection keeps two elites, so a
      population has an even number of at least two units. */
  predicate ValidConfig(cfg: Config) {
    cfg.size >= 2 && cfg.size % 2 == 0
  }

  /** A chromosome: a matrix of 64-bit floating-point genes, indexed [i][j]. */
  type Matrix = seq<seq<real>>

  predicate IsShape(m: Matrix, rows: nat, cols: nat) {
    |m| == rows && forall i :: 0 <= i < |m| ==> |m[i]| == cols
  }

  /** A member of the population: its chromosome, whether it has played its
      evaluation match, and the fitness that match gave it. */
  datatype Unit = Unit(chromosome: Matrix, tested: bool, fitness: real)

  /** A unit as the source's one-argument constructor builds it. */
  function Fresh(m: Matrix): Unit {
    Unit(m, false, 0.0)
  }

  predicate WellShaped(cfg: Config, u: Unit) {
    IsShape(u.chromosome, cfg.rows, cfg.cols)
  }

  predicate AllWellShaped(cfg: Config, units: seq<Unit>) {
    forall k :: 0 <= k < |units| ==> WellShaped(cfg, units[k])
  }

  /** A complete population: exactly `size` units, every one of them with the
      run's chromosome shape. */
  predicate Population(cfg: Config, pop: seq<Unit>) {
    |pop| == cfg.size && AllWellShaped(cfg, pop)
  }

  /** A position at which a unit occurs in a sequence holding it. */
  lemma IndexOf(x: Unit, s: seq<Unit>) returns (k: nat)
    requires x in multiset(s)
    ensures k < |s| && s[k] == x
  {
    k :| 0 <= k < |s| && s[k] == x;
  }

  /** The genes of a matrix in row-major order. */
  function Flatten(m: Matrix): seq<real> {
    if |m| == 0 then [] else m[0] + Flatten(m[1..])
  }

  lemma {:induction false} FlattenLength(m: Matrix, rows: nat, cols: nat)
    requires IsShape(m, rows, cols)
    ensures |Flatten(m)| == rows * cols
  {
    if rows > 0 {
      FlattenLength(m[1..], rows - 1, cols);
      assert rows * cols == (rows - 1) * cols + cols;
    }
  }

  /** Every gene of a matrix occurs in its row-major flattening. */
  lemma {:induction false} FlattenHasEveryGene(m: Matrix)
    ensures forall i, j :: 0 <= i < |m| && 0 <= j < |m[i]| ==> m[i][j] in Flatten(m)
  {
    if |m| > 0 {
      FlattenHasEveryGene(m[1..]);
      forall i, j | 0 <= i < |m| && 0 <= j < |m[i]|
        ensures m[i][j] in Flatten(m)
      {
        if i == 0 {
          assert m[0][j] == Flatten(m)[j];
        } else {
          assert m[i] == m[1..][i - 1];
          assert m[i][j] in Flatten(m[1..]);
        }
      }
    }
  }

  /** Rebuilds a `rows` x `cols` matrix from its row-major genes. */
  function Reshape(xs: seq<real>, rows: nat, cols: nat): (m: Matrix)
    requires |xs| == rows * cols
    ensures IsShape(m, rows, cols)
    ensures Flatten(m) == xs
    decreases rows
  {
    if rows == 0 then []
    else
      assert |xs| == (rows - 1) * cols + cols;
      var tail := Reshape(xs[cols..], rows - 1, cols);
      assert ([xs[..cols]] + tail)[1..] == tail;
      [xs[..cols]] + tail
  }

  /** Reshape undoes Flatten on a matrix of the given shape. */
  lemma {:induction false} ReshapeFlatten(m: Matrix, rows: nat, cols: nat)
    requires IsShape(m, rows, cols)
    ensures |Flatten(m)| == rows * cols
    ensures Reshape(Flatten(m), rows, cols) == m
  {
    FlattenLength(m, rows, cols);
    if rows > 0 {
      ReshapeFlatten(m[1..], rows - 1, cols);
      assert Flatten(m)[..cols] == m[0];
      assert Flatten(m)[cols..] == Flatten(m[1..]);
    }
  }

  /** The genes of a whole population: each unit's chromosome in row-major
      order, unit after unit. */
  function Genes(units: seq<Unit>): seq<real> {
    if |units| == 0 then [] else Flatten(units[0].chromosome) + Genes(units[1..])
  }

  /** Every gene of every unit occurs in the genes of the population. */
  lemma {:induction false} GenesHaveEveryGene(units: seq<Unit>)
    ensures forall k, i, j :: 0 <= k < |units| && 0 <= i < |units[k].chromosome| && 0 <= j < |units[k].chromosome[i]|
              ==> units[k].chromosome[i][j] in Genes(units)
  {
    if |units| > 0 {
      GenesHaveEveryGene(units[1..]);
      FlattenHasEveryGene(units[0].chromosome);
      forall k, i, j | 0 <= k < |units| && 0 <= i < |units[k].chromosome| && 0 <= j < |units[k].chromosome[i]|
        ensures units[k].chromosome[i][j] in Genes(units)
      {
        if k > 0 {
          assert units[k] == units[1..][k - 1];
        }
      }
    }
  }
}
