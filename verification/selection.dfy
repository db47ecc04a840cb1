/** Selection: rank the evaluated population by fitness, shift every fitness
    up by the amount of the most negative one (so the lowest becomes zero),
    keep the two best (elitism), then fill the rest of the next population
    pair by pair from roulette-chosen parents, crossed over or copied. */
module SelectionEngine {
  import opened Options
  import opened Chromosomes
  import opened RouletteWheel
  import opened UniformCrossover

  /** A pair of parents is crossed over when its coin is below this. */
  const CrossoverRate: real := 0.9

  predicate Descending(s: seq<Unit>) {
    forall i, j :: 0 <= i < j < |s| ==> s[i].fitness >= s[j].fitness
  }

  /** Places `u` in front of the first unit whose fitness is not above its own. */
  function Insert(u: Unit, s: seq<Unit>): (r: seq<Unit>)
    ensures multiset(r) == multiset(s) + multiset{u}
  {
    if |s| == 0 then [u]
    else if s[0].fitness <= u.fitness then [u] + s
    else
      assert s == [s[0]] + s[1..];
      [s[0]] + Insert(u, s[1..])
  }

  /** Inserting a unit no fitter than a bound into units no fitter than it
      leaves every unit within the bound. */
  lemma InsertBounded(u: Unit, s: seq<Unit>, bound: real)
    requires u.fitness <= bound
    requires forall k :: 0 <= k < |s| ==> s[k].fitness <= bound
    ensures forall k :: 0 <= k < |Insert(u, s)| ==> Insert(u, s)[k].fitness <= bound
  {
    var r := Insert(u, s);
    forall k | 0 <= k < |r|
      ensures r[k].fitness <= bound
    {
      assert r[k] in multiset(r);
      if r[k] != u {
        var i := IndexOf(r[k], s);
      }
    }
  }

  lemma {:induction false} InsertKeepsDescending(u: Unit, s: seq<Unit>)
    requires Descending(s)
    ensures Descending(Insert(u, s))
  {
    if |s| == 0 {
      assert Insert(u, s) == [u];
    } else if s[0].fitness <= u.fitness {
      assert forall k :: 0 <= k < |s| ==> s[k].fitness <= s[0].fitness;
      PrependDescending(u, s);
    } else {
      InsertKeepsDescending(u, s[1..]);
      InsertBounded(u, s[1..], s[0].fitness);
      PrependDescending(s[0], Insert(u, s[1..]));
    }
  }

  /** A unit at least as fit as every unit of a descending list can go in front. */
  lemma PrependDescending(x: Unit, t: seq<Unit>)
    requires Descending(t)
    requires forall k :: 0 <= k < |t| ==> t[k].fitness <= x.fitness
    ensures Descending([x] + t)
  {
    var r := [x] + t;
    forall i, j | 0 <= i < j < |r|
      ensures r[i].fitness >= r[j].fitness
    {
      assert r[j] == t[j - 1];
      if i > 0 {
        assert r[i] == t[i - 1];
      }
    }
  }

  /** The sort of the population by descending fitness. */
  function SortDescending(s: seq<Unit>): (r: seq<Unit>)
    ensures multiset(r) == multiset(s) && |r| == |s|
    ensures Descending(r)
  {
    if |s| == 0 then []
    else
      assert s == [s[0]] + s[1..];
      var rest := SortDescending(s[1..]);
      InsertKeepsDescending(s[0], rest);
      Insert(s[0], rest)
  }

  /** The shift: when the last, smallest, fitness is negative, every fitness
      is raised by the same amount so that the smallest becomes 0. Order,
      chromosomes and tested flags are untouched. */
  function Shift(s: seq<Unit>): (r: seq<Unit>)
    requires |s| > 0
    ensures |r| == |s|
    ensures forall i :: 0 <= i < |s| ==> r[i].chromosome == s[i].chromosome && r[i].tested == s[i].tested
    ensures forall i :: 0 <= i < |s| ==> r[i].fitness - s[i].fitness == r[|s| - 1].fitness - s[|s| - 1].fitness
    ensures s[|s| - 1].fitness < 0.0 ==> r[|s| - 1].fitness == 0.0
    ensures s[|s| - 1].fitness >= 0.0 ==> r == s
    ensures Descending(s) ==> Descending(r) && NonNegative(r)
  {
    var least := s[|s| - 1].fitness;
    if least < 0.0 then seq(|s|, i requires 0 <= i < |s| => s[i].(fitness := s[i].fitness - least))
    else s
  }

  /** The source's shifting loop, which reads the last unit's fitness afresh
      on every pass. That value only changes on the final pass, so every
      unit is lowered by the same amount. */
  method ShiftInPlace(s: seq<Unit>) returns (r: seq<Unit>)
    requires |s| > 0
    ensures r == Shift(s)
  {
    r := s;
    var last := |r| - 1;
    if r[last].fitness < 0.0 {
      var i := 0;
      while i < |r|
        invariant 0 <= i <= |r| && |r| == |s|
        invariant forall k :: 0 <= k < i ==> r[k] == s[k].(fitness := s[k].fitness - s[last].fitness)
        invariant forall k :: i <= k < |r| ==> r[k] == s[k]
      {
        r := r[i := r[i].(fitness := r[i].fitness - r[last].fitness)];
        i := i + 1;
      }
    }
  }

  /** The population as roulette sees it: sorted, then shifted. */
  function Ranked(cfg: Config, pop: seq<Unit>): (r: seq<Unit>)
    requires |pop| > 0
    ensures |r| == |pop| && Descending(r) && NonNegative(r)
    ensures AllWellShaped(cfg, pop) ==> AllWellShaped(cfg, r)
  {
    var sorted := SortDescending(pop);
    var r := Shift(sorted);
    assert AllWellShaped(cfg, pop) ==> AllWellShaped(cfg, r) by {
      if AllWellShaped(cfg, pop) {
        forall k | 0 <= k < |r|
          ensures WellShaped(cfg, r[k])
        {
          assert sorted[k] in multiset(pop);
        }
      }
    }
    r
  }

  /** Ranking only reorders the population and moves fitness: every ranked
      unit has the chromosome and tested flag of a unit of the input. */
  lemma RankedFromInput(cfg: Config, pop: seq<Unit>)
    requires |pop| > 0
    ensures forall k :: 0 <= k < |pop| ==>
              exists j :: 0 <= j < |pop| && pop[j].chromosome == Ranked(cfg, pop)[k].chromosome
                                          && pop[j].tested == Ranked(cfg, pop)[k].tested
  {
    var sorted := SortDescending(pop);
    var r := Ranked(cfg, pop);
    assert r == Shift(sorted);
    forall k | 0 <= k < |r|
      ensures exists j :: 0 <= j < |pop| && pop[j].chromosome == r[k].chromosome && pop[j].tested == r[k].tested
    {
      assert sorted[k] in multiset(sorted);
      var j := IndexOf(sorted[k], pop);
      assert pop[j].chromosome == r[k].chromosome && pop[j].tested == r[k].tested;
    }
  }

  /** Conversely, every input unit's chromosome and tested flag appear
      somewhere in the ranking: no unit is lost. */
  lemma InputInRanked(cfg: Config, pop: seq<Unit>)
    requires |pop| > 0
    ensures forall j :: 0 <= j < |pop| ==>
              exists k :: 0 <= k < |pop| && pop[j].chromosome == Ranked(cfg, pop)[k].chromosome
                                          && pop[j].tested == Ranked(cfg, pop)[k].tested
  {
    var sorted := SortDescending(pop);
    var r := Ranked(cfg, pop);
    assert r == Shift(sorted);
    forall j | 0 <= j < |pop|
      ensures exists k :: 0 <= k < |pop| && pop[j].chromosome == r[k].chromosome && pop[j].tested == r[k].tested
    {
      assert pop[j] in multiset(pop);
      var k := IndexOf(pop[j], sorted);
      assert pop[j].chromosome == r[k].chromosome && pop[j].tested == r[k].tested;
    }
  }

  /** The random draws of one pass of the selection loop, in the order the
      source makes them: the two roulette fractions, the crossover coin and
      the crossover's per-gene coins. */
  datatype Draw = Draw(first: real, second: real, crossover: real, mask: Matrix)

  predicate ValidDraw(cfg: Config, d: Draw) {
    && 0.0 <= d.first <= 1.0 && 0.0 <= d.second <= 1.0
    && IsShape(d.mask, cfg.rows, cfg.cols)
  }

  /** The pool with its unit `i` taken out, the others keeping their order. */
  function Without(pool: seq<Unit>, i: nat): seq<Unit>
    requires i < |pool|
  {
    pool[..i] + pool[i + 1..]
  }

  /** The roulette wheel, spun with fraction `u`, stops at unit `i`. */
  predicate Picks(pool: seq<Unit>, u: real, i: nat) {
    i < |pool| && StopsAt(pool, u * Sum(pool), i)
  }

  /** What one pass of the selection loop does with draw `d`: the first
      roulette spin stops at unit `i` of the pool, which is taken out; the
      second spin stops at unit `j` of what is left, which is taken out too,
      leaving `rest`. When the crossover coin is below CrossoverRate the pass
      appends the crossover of those two parents under the draw's gene coins,
      and otherwise the two parents themselves, first pick first. */
  predicate PassOf(cfg: Config, pool: seq<Unit>, d: Draw, i: nat, j: nat, c1: Unit, c2: Unit, rest: seq<Unit>) {
    && Picks(pool, d.first, i)
    && Picks(Without(pool, i), d.second, j)
    && rest == Without(Without(pool, i), j)
    && (d.crossover >= CrossoverRate ==> c1 == pool[i] && c2 == Without(pool, i)[j])
    && (d.crossover < CrossoverRate ==>
          && WellShaped(cfg, pool[i]) && WellShaped(cfg, Without(pool, i)[j])
          && IsShape(d.mask, cfg.rows, cfg.cols)
          && Offspring(c1, c2) == Crossover(cfg, pool[i].chromosome, Without(pool, i)[j].chromosome, d.mask))
  }

  /** `off` is what the selection loop appends when it runs one pass per
      draw from `pool`, each pass drawing from the pool the previous passes
      left, and `left` is the pool after the last pass. */
  ghost predicate BredBy(cfg: Config, pool: seq<Unit>, draws: seq<Draw>, off: seq<Unit>, left: seq<Unit>)
    decreases |draws|
  {
    if |draws| == 0 then off == [] && left == pool
    else
      && |off| >= 2
      && exists i: nat, j: nat, rest: seq<Unit> :: PassOf(cfg, pool, draws[0], i, j, off[0], off[1], rest)
                            && BredBy(cfg, rest, draws[1..], off[2..], left)
  }

  /** A pool with units taken out keeps the properties of every unit. */
  lemma SubPool(cfg: Config, pool: seq<Unit>, sub: seq<Unit>)
    requires multiset(sub) <= multiset(pool)
    requires NonNegative(pool) && AllWellShaped(cfg, pool)
    ensures NonNegative(sub) && AllWellShaped(cfg, sub)
  {
    forall k | 0 <= k < |sub|
      ensures sub[k].fitness >= 0.0 && WellShaped(cfg, sub[k])
    {
      assert sub[k] in multiset(sub);
      var i := IndexOf(sub[k], pool);
    }
  }

  /** What one pass of the selection loop appends, the positions its two
      roulette spins stopped at, and the pool after it. */
  datatype Pass = Pass(firstIndex: nat, secondIndex: nat, first: Unit, second: Unit, rest: seq<Unit>)

  /** One pass of the selection loop: two parents chosen by roulette and
      removed from the pool, then crossed over when the coin is below
      CrossoverRate and copied otherwise. On a non-negative pool of at least
      two units both spins always stop. */
  function Mate(cfg: Config, pool: seq<Unit>, d: Draw): (r: Pass)
    requires |pool| >= 2 && NonNegative(pool) && AllWellShaped(cfg, pool)
    requires ValidDraw(cfg, d)
    ensures PassOf(cfg, pool, d, r.firstIndex, r.secondIndex, r.first, r.second, r.rest)
    ensures |r.rest| == |pool| - 2 && multiset(r.rest) <= multiset(pool)
    ensures NonNegative(r.rest) && AllWellShaped(cfg, r.rest)
    ensures WellShaped(cfg, r.first) && WellShaped(cfg, r.second)
  {
    var p1 := Spin(cfg, pool, d.first);
    var p2 := Spin(cfg, p1.rest, d.second);
    assert multiset(p2.rest) <= multiset(pool);
    if d.crossover < CrossoverRate then
      var o := Crossover(cfg, p1.unit.chromosome, p2.unit.chromosome, d.mask);
      assert Offspring(o.first, o.second) == o;
      Pass(p1.index, p2.index, o.first, o.second, p2.rest)
    else
      Pass(p1.index, p2.index, p1.unit, p2.unit, p2.rest)
  }

  /** One roulette spin on a pool the selection loop has not exhausted: it
      always stops, and the pool keeps the properties of its units. */
  function Spin(cfg: Config, pool: seq<Unit>, u: real): (p: Pick)
    requires |pool| > 0 && NonNegative(pool) && AllWellShaped(cfg, pool) && 0.0 <= u <= 1.0
    ensures Picks(pool, u, p.index) && p.unit == pool[p.index] && p.rest == Without(pool, p.index)
    ensures |p.rest| == |pool| - 1 && multiset(p.rest) <= multiset(pool)
    ensures WellShaped(cfg, p.unit) && NonNegative(p.rest) && AllWellShaped(cfg, p.rest)
  {
    var p := Roulette(pool, u).value;
    SubPool(cfg, pool, p.rest);
    p
  }

  lemma WellShapedPrepend(cfg: Config, c1: Unit, c2: Unit, off: seq<Unit>)
    requires WellShaped(cfg, c1) && WellShaped(cfg, c2) && AllWellShaped(cfg, off)
    ensures AllWellShaped(cfg, [c1, c2] + off)
  {
    var all := [c1, c2] + off;
    forall k | 0 <= k < |all|
      ensures WellShaped(cfg, all[k])
    {
      if k >= 2 {
        assert all[k] == off[k - 2];
      }
    }
  }

  /** One more pass in front of a run of passes is a longer run. */
  lemma BredByStep(cfg: Config, pool: seq<Unit>, draws: seq<Draw>, pass: Pass, off: seq<Unit>, left: seq<Unit>)
    requires |draws| > 0
    requires PassOf(cfg, pool, draws[0], pass.firstIndex, pass.secondIndex, pass.first, pass.second, pass.rest)
    requires BredBy(cfg, pass.rest, draws[1..], off, left)
    ensures BredBy(cfg, pool, draws, [pass.first, pass.second] + off, left)
  {
    var all := [pass.first, pass.second] + off;
    assert all[0] == pass.first && all[1] == pass.second && all[2..] == off;
  }

  /** The result of the selection loop: the units it appended, and what is
      left of the roulette pool. */
  datatype Bred = Bred(offspring: seq<Unit>, pool: seq<Unit>)

  /** The selection loop, one pass per draw, each drawing from the pool the
      passes before it left. */
  function Breed(cfg: Config, pool: seq<Unit>, draws: seq<Draw>): (r: Bred)
    requires |pool| >= 2 * |draws|
    requires NonNegative(pool) && AllWellShaped(cfg, pool)
    requires forall k :: 0 <= k < |draws| ==> ValidDraw(cfg, draws[k])
    ensures BredBy(cfg, pool, draws, r.offspring, r.pool)
    ensures |r.offspring| == 2 * |draws|
    ensures |r.pool| == |pool| - 2 * |draws|
    ensures multiset(r.pool) <= multiset(pool)
    ensures AllWellShaped(cfg, r.offspring)
    decreases |draws|
  {
    if |draws| == 0 then Bred([], pool)
    else
      var pass := Mate(cfg, pool, draws[0]);
      var tail := Breed(cfg, pass.rest, draws[1..]);
      WellShapedPrepend(cfg, pass.first, pass.second, tail.offspring);
      BredByStep(cfg, pool, draws, pass, tail.offspring, tail.pool);
      Bred([pass.first, pass.second] + tail.offspring, tail.pool)
  }

  /** Sampling without replacement: when no pass crosses over, the loop
      only moves units from the pool to the offspring, each unit at most as
      often as the pool holds it. */
  lemma {:induction false} CopiesConservePool(cfg: Config, pool: seq<Unit>, draws: seq<Draw>, off: seq<Unit>, left: seq<Unit>)
    requires BredBy(cfg, pool, draws, off, left)
    requires forall k :: 0 <= k < |draws| ==> draws[k].crossover >= CrossoverRate
    ensures multiset(off) + multiset(left) == multiset(pool)
    decreases |draws|
  {
    if |draws| > 0 {
      var i, j, rest := FirstCopy(cfg, pool, draws, off, left);
      CopiesConservePool(cfg, rest, draws[1..], off[2..], left);
      MovePair(pool, i, j, off, left);
    }
  }

  /** The first pass of a breeding run whose coin says copy: the two units
      appended are the two roulette picks, and the run goes on from the pool
      without them. */
  lemma FirstCopy(cfg: Config, pool: seq<Unit>, draws: seq<Draw>, off: seq<Unit>, left: seq<Unit>)
    returns (i: nat, j: nat, rest: seq<Unit>)
    requires BredBy(cfg, pool, draws, off, left)
    requires |draws| > 0 && draws[0].crossover >= CrossoverRate
    ensures i < |pool| && j < |pool| - 1 && |off| >= 2
    ensures off[0] == pool[i] && off[1] == Without(pool, i)[j]
    ensures rest == Without(Without(pool, i), j)
    ensures BredBy(cfg, rest, draws[1..], off[2..], left)
  {
    i, j, rest :| PassOf(cfg, pool, draws[0], i, j, off[0], off[1], rest)
                  && BredBy(cfg, rest, draws[1..], off[2..], left);
  }

  /** Moving the units at `i` and then `j` from the pool to the front of the
      offspring keeps the units of pool and offspring together. */
  lemma MovePair(pool: seq<Unit>, i: nat, j: nat, off: seq<Unit>, left: seq<Unit>)
    requires i < |pool| && j < |pool| - 1 && |off| >= 2
    requires off[0] == pool[i] && off[1] == Without(pool, i)[j]
    requires multiset(off[2..]) + multiset(left) == multiset(Without(Without(pool, i), j))
    ensures multiset(off) + multiset(left) == multiset(pool)
  {
    var once := Without(pool, i);
    RemoveAt(pool, i);
    RemoveAt(once, j);
    assert off == [off[0], off[1]] + off[2..];
  }

  /** The result of Selection: the next population, and what is left of the
      roulette pool, which the source's list of units becomes. */
  datatype Selected = Selected(next: seq<Unit>, leftover: seq<Unit>)

  /** Selection: exactly `size` units. The first two are the two best of the
      ranked population (elitism), which stay in the roulette pool. The
      units after them are what the loop appends, pass by pass, drawing
      without replacement from the whole ranked population. The loop draws
      size - 2 parents from a pool of `size`, so the pool never runs empty,
      and the two units left over are what the source's list becomes. */
  function Selection(cfg: Config, pop: seq<Unit>, draws: seq<Draw>): (r: Selected)
    requires ValidConfig(cfg) && Population(cfg, pop)
    requires |draws| == cfg.size / 2 - 1
    requires forall k :: 0 <= k < |draws| ==> ValidDraw(cfg, draws[k])
    ensures |r.next| == cfg.size && AllWellShaped(cfg, r.next)
    ensures r.next[0] == Ranked(cfg, pop)[0] && r.next[1] == Ranked(cfg, pop)[1]
    ensures BredBy(cfg, Ranked(cfg, pop), draws, r.next[2..], r.leftover)
    ensures |r.leftover| == 2 && multiset(r.leftover) <= multiset(Ranked(cfg, pop))
  {
    var ranked := Ranked(cfg, pop);
    assert AllWellShaped(cfg, ranked) && |ranked| >= 2;
    var bred := Breed(cfg, ranked, draws);
    WellShapedPrepend(cfg, ranked[0], ranked[1], bred.offspring);
    var next := [ranked[0], ranked[1]] + bred.offspring;
    assert next[2..] == bred.offspring;
    Selected(next, bred.pool)
  }

  /** Elitism: the first unit of the next population is at least as fit as
      every ranked unit, and the second at least as fit as every ranked unit
      but the first. */
  lemma ElitesAreBest(cfg: Config, pop: seq<Unit>, draws: seq<Draw>)
    requires ValidConfig(cfg) && Population(cfg, pop)
    requires |draws| == cfg.size / 2 - 1
    requires forall k :: 0 <= k < |draws| ==> ValidDraw(cfg, draws[k])
    ensures forall k :: 1 <= k < cfg.size ==> Ranked(cfg, pop)[k].fitness <= Selection(cfg, pop, draws).next[0].fitness
    ensures forall k :: 2 <= k < cfg.size ==> Ranked(cfg, pop)[k].fitness <= Selection(cfg, pop, draws).next[1].fitness
  {
    var ranked := Ranked(cfg, pop);
    var next := Selection(cfg, pop, draws).next;
    assert next[0] == ranked[0] && next[1] == ranked[1];
    forall k | 1 <= k < cfg.size
      ensures ranked[k].fitness <= next[0].fitness
      ensures k >= 2 ==> ranked[k].fitness <= next[1].fitness
    {
      assert ranked[0].fitness >= ranked[k].fitness;
      if k >= 2 {
        assert ranked[1].fitness >= ranked[k].fitness;
      }
    }
  }

  /** The first elite carries the chromosome of an input unit whose fitness
      is the largest of the population. */
  lemma EliteIsFittest(cfg: Config, pop: seq<Unit>)
    requires |pop| > 0
    ensures exists k :: 0 <= k < |pop| && pop[k].chromosome == Ranked(cfg, pop)[0].chromosome
                        && forall j :: 0 <= j < |pop| ==> pop[j].fitness <= pop[k].fitness
  {
    var sorted := SortDescending(pop);
    var k := IndexOf(sorted[0], pop);
    forall j | 0 <= j < |pop|
      ensures pop[j].fitness <= pop[k].fitness
    {
      var i := IndexOf(pop[j], sorted);
    }
  }

  /** The elites are not taken out of the roulette pool: a first draw of 0
      chooses the best unit again, and without crossover it is copied, so
      the next population holds it twice. */
  lemma EliteCanBeDrawnAgain(cfg: Config, pop: seq<Unit>, draws: seq<Draw>)
    requires ValidConfig(cfg) && Population(cfg, pop) && cfg.size >= 4
    requires |draws| == cfg.size / 2 - 1
    requires forall k :: 0 <= k < |draws| ==> ValidDraw(cfg, draws[k])
    requires draws[0].first == 0.0 && draws[0].crossover >= CrossoverRate
    ensures Selection(cfg, pop, draws).next[2] == Selection(cfg, pop, draws).next[0]
  {
    var ranked := Ranked(cfg, pop);
    ZeroDrawPicksFirst(ranked, 0.0);
  }
}
