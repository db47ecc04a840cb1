/** The evaluation cursor. Units play their match in pairs (0,1), (2,3), ...;
    the cursor is the index of the pair in play. A pair counts as evaluated
    when its left unit is marked tested, which is what lets a restarted run
    skip the pairs it evaluated before. */
module EvaluationCursor {
  import opened Chromosomes

  /** The number of pairs, POPULATION_SIZE / 2. */
  function Pairs(cfg: Config): nat {
    cfg.size / 2
  }

  /** Pair `k` has been evaluated. */
  predicate LeftTested(pop: seq<Unit>, k: nat)
    requires 2 * k < |pop|
  {
    pop[2 * k].tested
  }

  /** Every pair before `cursor` has been evaluated. */
  predicate TestedBelow(pop: seq<Unit>, cursor: nat)
    requires 2 * cursor <= |pop|
  {
    forall k :: 0 <= k < cursor ==> LeftTested(pop, k)
  }

  /** The scan at the head of Evaluation: from `cursor`, skip every pair
      already evaluated. It stops at the first pair not yet evaluated, or at
      `Pairs(cfg)`, which signals that the generation is complete. */
  function Scan(cfg: Config, pop: seq<Unit>, cursor: nat): (k: nat)
    requires |pop| == cfg.size && cursor <= Pairs(cfg)
    ensures cursor <= k <= Pairs(cfg)
    ensures k < Pairs(cfg) ==> !LeftTested(pop, k)
    ensures forall j :: cursor <= j < k ==> LeftTested(pop, j)
    decreases Pairs(cfg) - cursor
  {
    if cursor == Pairs(cfg) then cursor
    else if pop[2 * cursor].tested then Scan(cfg, pop, cursor + 1)
    else cursor
  }

  /** The bookkeeping of Evaluated: the pair at the cursor gets the two
      fitness values in order and both its units are marked tested. */
  function Record(cfg: Config, pop: seq<Unit>, cursor: nat, left: real, right: real): (r: seq<Unit>)
    requires |pop| == cfg.size && cursor < Pairs(cfg)
    ensures |r| == |pop|
    ensures r[2 * cursor].tested && r[2 * cursor].fitness == left
    ensures r[2 * cursor + 1].tested && r[2 * cursor + 1].fitness == right
    ensures r[2 * cursor].chromosome == pop[2 * cursor].chromosome
    ensures r[2 * cursor + 1].chromosome == pop[2 * cursor + 1].chromosome
    ensures forall j :: 0 <= j < |pop| && j != 2 * cursor && j != 2 * cursor + 1 ==> r[j] == pop[j]
  {
    var l := 2 * cursor;
    pop[l := pop[l].(fitness := left, tested := true)][l + 1 := pop[l + 1].(fitness := right, tested := true)]
  }

  /** Recording the pair at the cursor extends the evaluated prefix by one
      pair, which is why advancing the cursor afterwards is sound. */
  lemma RecordExtendsTested(cfg: Config, pop: seq<Unit>, cursor: nat, left: real, right: real)
    requires |pop| == cfg.size && cursor < Pairs(cfg)
    requires TestedBelow(pop, cursor)
    ensures TestedBelow(Record(cfg, pop, cursor, left, right), cursor + 1)
  {
    var r := Record(cfg, pop, cursor, left, right);
    forall k | 0 <= k < cursor + 1
      ensures LeftTested(r, k)
    {
      if k < cursor {
        assert LeftTested(pop, k);
      }
    }
  }

  /** Scanning across evaluated pairs ends where scanning from the last of
      them would. */
  lemma {:induction false} ScanSkipsTested(cfg: Config, pop: seq<Unit>, from: nat, cursor: nat)
    requires |pop| == cfg.size && from <= cursor <= Pairs(cfg)
    requires forall k :: from <= k < cursor ==> LeftTested(pop, k)
    ensures Scan(cfg, pop, from) == Scan(cfg, pop, cursor)
    decreases cursor - from
  {
    if from < cursor {
      assert LeftTested(pop, from);
      ScanSkipsTested(cfg, pop, from + 1, cursor);
    }
  }

  /** Resume: when every pair before the cursor has been evaluated, a scan
      from the first pair (what a restarted run does) stops at the same pair
      as the scan from the cursor, so no evaluated pair is played again. */
  lemma ScanFromStart(cfg: Config, pop: seq<Unit>, cursor: nat)
    requires |pop| == cfg.size && cursor <= Pairs(cfg)
    requires TestedBelow(pop, cursor)
    ensures Scan(cfg, pop, 0) == Scan(cfg, pop, cursor)
  {
    ScanSkipsTested(cfg, pop, 0, cursor);
  }

  /** A scan from the first pair stops exactly at the first pair not yet
      evaluated: when the evaluated pairs are 0 .. k-1 and pair k is not,
      the scan lands on k. */
  lemma ScanFindsFirstUntested(cfg: Config, pop: seq<Unit>, k: nat)
    requires |pop| == cfg.size && k < Pairs(cfg)
    requires TestedBelow(pop, k) && !LeftTested(pop, k)
    ensures Scan(cfg, pop, 0) == k
  {
    ScanFromStart(cfg, pop, k);
  }
}
