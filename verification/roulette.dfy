/** Roulette-wheel choice of a parent, without replacement. The generator's
    draw `Random.Range(0, total)` is modelled as a fraction `u` in [0, 1]
    scaled by the pool's fitness total. */
module RouletteWheel {
  import opened Options
  import opened Chromosomes

  /** The tolerance the walk compares the remaining value against. */
  const Epsilon: real := 0.00001

  function Sum(pool: seq<Unit>): real {
    if |pool| == 0 then 0.0 else pool[0].fitness + Sum(pool[1..])
  }

  /** The fitness total of units 0 .. i of the pool. */
  function Through(pool: seq<Unit>, i: nat): real
    requires i < |pool|
  {
    Sum(pool[..i + 1])
  }

  predicate NonNegative(pool: seq<Unit>) {
    forall k :: 0 <= k < |pool| ==> pool[k].fitness >= 0.0
  }

  /** Unit `i` is where the walk stops: the drawn value minus the running
      total through `i` is at most Epsilon, and through every earlier unit
      it was still above. */
  predicate StopsAt(pool: seq<Unit>, value: real, i: nat)
    requires i < |pool|
  {
    && value - Through(pool, i) <= Epsilon
    && forall j :: 0 <= j < i ==> value - Through(pool, j) > Epsilon
  }

  lemma ThroughStep(pool: seq<Unit>)
    requires |pool| > 0
    ensures Through(pool, 0) == pool[0].fitness
    ensures forall j :: 1 <= j < |pool| ==> Through(pool, j) == pool[0].fitness + Through(pool[1..], j - 1)
  {
    assert pool[..1] == [pool[0]] && pool[..1][1..] == [];
    assert Sum(pool[..1]) == pool[0].fitness + Sum([]);
    forall j | 1 <= j < |pool|
      ensures Through(pool, j) == pool[0].fitness + Through(pool[1..], j - 1)
    {
      assert pool[..j + 1][1..] == pool[1..][..j];
    }
  }

  lemma {:induction false} SumNonNegative(pool: seq<Unit>)
    requires NonNegative(pool)
    ensures Sum(pool) >= 0.0
  {
    if |pool| > 0 {
      SumNonNegative(pool[1..]);
    }
  }

  lemma {:induction false} SumAllZero(pool: seq<Unit>)
    requires forall k :: 0 <= k < |pool| ==> pool[k].fitness == 0.0
    ensures Sum(pool) == 0.0
  {
    if |pool| > 0 {
      SumAllZero(pool[1..]);
    }
  }

  /** The walk: subtract each unit's fitness from the value in turn and stop
      at the first unit after which it is at most Epsilon; if none, the
      source's loop ends with no unit chosen. */
  function Walk(pool: seq<Unit>, value: real): (r: Option<nat>)
    ensures r.Some? ==> r.value < |pool| && StopsAt(pool, value, r.value)
    ensures r.None? ==> forall j :: 0 <= j < |pool| ==> value - Through(pool, j) > Epsilon
  {
    if |pool| == 0 then None
    else
      ThroughStep(pool);
      if value - pool[0].fitness <= Epsilon then Some(0)
      else
        match Walk(pool[1..], value - pool[0].fitness)
        case None => None
        case Some(k) => Some(k + 1)
  }

  /** The chosen unit, its position, and the pool without it. */
  datatype Pick = Pick(index: nat, unit: Unit, rest: seq<Unit>)

  /** Roulette: the unit where the walk stops is returned and removed from
      the pool, the others keeping their order. On a non-empty pool of
      non-negative fitness a unit is always chosen. */
  function Roulette(pool: seq<Unit>, u: real): (r: Option<Pick>)
    ensures r.Some? ==> r.value.index < |pool| && StopsAt(pool, u * Sum(pool), r.value.index)
    ensures r.Some? ==> r.value.unit == pool[r.value.index]
    ensures r.Some? ==> r.value.rest == pool[..r.value.index] + pool[r.value.index + 1..]
    ensures r.Some? ==> multiset(r.value.rest) + multiset{r.value.unit} == multiset(pool)
    ensures 0.0 <= u <= 1.0 && NonNegative(pool) && |pool| > 0 ==> r.Some?
  {
    var value := u * Sum(pool);
    assert 0.0 <= u <= 1.0 && NonNegative(pool) && |pool| > 0 ==> Walk(pool, value).Some? by {
      if 0.0 <= u <= 1.0 && NonNegative(pool) && |pool| > 0 {
        DrawWithinSum(pool, u);
        WalkFinds(pool, value);
      }
    }
    match Walk(pool, value)
    case None => None
    case Some(i) => Some(TakeAt(pool, i))
  }

  /** Unit `i` taken out of the pool, the others keeping their order. */
  function TakeAt(pool: seq<Unit>, i: nat): (p: Pick)
    requires i < |pool|
    ensures p.index == i && p.unit == pool[i] && p.rest == pool[..i] + pool[i + 1..]
    ensures multiset(p.rest) + multiset{p.unit} == multiset(pool)
  {
    RemoveAt(pool, i);
    Pick(i, pool[i], pool[..i] + pool[i + 1..])
  }

  lemma DrawWithinSum(pool: seq<Unit>, u: real)
    requires 0.0 <= u <= 1.0 && NonNegative(pool)
    ensures u * Sum(pool) <= Sum(pool)
  {
    SumNonNegative(pool);
  }

  lemma RemoveAt(pool: seq<Unit>, i: nat)
    requires i < |pool|
    ensures multiset(pool[..i] + pool[i + 1..]) + multiset{pool[i]} == multiset(pool)
  {
    assert pool == pool[..i] + [pool[i]] + pool[i + 1..];
  }

  /** A value no larger than the pool's total always stops the walk: by the
      last unit the running total has reached the whole sum. */
  lemma WalkFinds(pool: seq<Unit>, value: real)
    requires |pool| > 0 && value <= Sum(pool)
    ensures Walk(pool, value).Some?
  {
    assert pool[..|pool|] == pool;
    assert value - Through(pool, |pool| - 1) <= Epsilon;
  }

  /** A draw of 0, and so in particular any draw from a pool whose fitness
      values are all 0, chooses the first unit. */
  lemma {:induction false} ZeroDrawPicksFirst(pool: seq<Unit>, u: real)
    requires |pool| > 0 && NonNegative(pool) && 0.0 <= u <= 1.0
    requires u == 0.0 || forall k :: 0 <= k < |pool| ==> pool[k].fitness == 0.0
    ensures Roulette(pool, u).Some? && Roulette(pool, u).value.index == 0
  {
    if u != 0.0 {
      SumAllZero(pool);
    }
    ThroughStep(pool);
  }
}
