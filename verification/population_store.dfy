/** The binary population file: a 32-bit generation, then for each of the
    `size` units its genes as 64-bit floats in row-major order, its tested
    flag and its 32-bit float fitness. The file is modelled as a stream of
    typed tokens, one per value the binary reader and writer move; the
    floating-point values inside the tokens are opaque. */
module PopulationStore {
  import opened Options
  import opened Chromosomes
  import opened Generation

  datatype Token =
    | Int32Token(i: Int32)
    | DoubleToken(d: real)
    | BoolToken(b: bool)
    | SingleToken(f: real)

  /** What a successful load yields: the population and the generation. */
  datatype Snapshot = Snapshot(population: seq<Unit>, generation: Int32)

  /** A value read from the front of a stream, and the stream after it. */
  datatype Read<+T> = Read(value: T, rest: seq<Token>)

  /** The outcome of a save: whether it succeeded, and what the file holds. */
  datatype Saved = Saved(ok: bool, file: seq<Token>)

  /** The number of tokens one unit occupies. */
  function UnitLength(cfg: Config): nat {
    cfg.rows * cfg.cols + 2
  }

  /** The number of tokens of a complete population file. */
  function FileLength(cfg: Config): nat {
    1 + cfg.size * UnitLength(cfg)
  }

  function Doubles(xs: seq<real>): seq<Token> {
    if |xs| == 0 then [] else [DoubleToken(xs[0])] + Doubles(xs[1..])
  }

  function EncodeUnit(u: Unit): seq<Token> {
    Doubles(Flatten(u.chromosome)) + [BoolToken(u.tested), SingleToken(u.fitness)]
  }

  function EncodeUnits(units: seq<Unit>): seq<Token> {
    if |units| == 0 then [] else EncodeUnit(units[0]) + EncodeUnits(units[1..])
  }

  lemma {:induction false} EncodeUnitsLength(cfg: Config, units: seq<Unit>)
    requires AllWellShaped(cfg, units)
    ensures |EncodeUnits(units)| == |units| * UnitLength(cfg)
  {
    if |units| > 0 {
      DoublesLength(Flatten(units[0].chromosome));
      FlattenLength(units[0].chromosome, cfg.rows, cfg.cols);
      EncodeUnitsLength(cfg, units[1..]);
      assert |units| * UnitLength(cfg) == (|units| - 1) * UnitLength(cfg) + UnitLength(cfg);
    }
  }

  lemma {:induction false} DoublesLength(xs: seq<real>)
    ensures |Doubles(xs)| == |xs|
  {
    if |xs| > 0 {
      DoublesLength(xs[1..]);
    }
  }

  /** SavePopulation: writes the generation, then units 0 .. size-1. A list
      shorter than `size` makes the writer fail at the first missing unit,
      after the units before it have reached the file. */
  function Save(cfg: Config, pop: seq<Unit>, generation: Int32): (r: Saved)
    ensures r.ok <==> |pop| >= cfg.size
    ensures |r.file| > 0 && r.file[0] == Int32Token(generation)
    ensures AllWellShaped(cfg, pop) && r.ok ==> |r.file| == FileLength(cfg)
    ensures AllWellShaped(cfg, pop) && !r.ok ==> |r.file| < FileLength(cfg)
  {
    var written := if |pop| < cfg.size then |pop| else cfg.size;
    var file := [Int32Token(generation)] + EncodeUnits(pop[..written]);
    assert AllWellShaped(cfg, pop) ==> |file| <= FileLength(cfg) && (|file| == FileLength(cfg) <==> written == cfg.size) by {
      if AllWellShaped(cfg, pop) {
        WrittenLength(cfg, pop, written);
      }
    }
    Saved(|pop| >= cfg.size, file)
  }

  /** The units written so far occupy `written` unit lengths, which fall
      short of a complete file exactly when units are missing. */
  lemma WrittenLength(cfg: Config, pop: seq<Unit>, written: nat)
    requires written <= |pop| && written <= cfg.size && AllWellShaped(cfg, pop)
    ensures 1 + |EncodeUnits(pop[..written])| <= FileLength(cfg)
    ensures 1 + |EncodeUnits(pop[..written])| == FileLength(cfg) <==> written == cfg.size
  {
    var prefix := pop[..written];
    assert AllWellShaped(cfg, prefix) by {
      forall k | 0 <= k < |prefix|
        ensures WellShaped(cfg, prefix[k])
      {
        assert prefix[k] == pop[k];
      }
    }
    EncodeUnitsLength(cfg, prefix);
    if written < cfg.size {
      MulLess(written, cfg.size, UnitLength(cfg));
    }
  }

  lemma {:induction false} MulLess(a: nat, b: nat, n: nat)
    requires a < b && n > 0
    ensures a * n < b * n
    decreases b - a
  {
    assert (a + 1) * n == a * n + n;
    if a + 1 < b {
      MulLess(a + 1, b, n);
    }
  }

  function ReadInt32(s: seq<Token>): (r: Option<Read<Int32>>)
    ensures r.Some? ==> s == [Int32Token(r.value.value)] + r.value.rest
  {
    if |s| > 0 && s[0].Int32Token? then Some(Read(s[0].i, s[1..])) else None
  }

  /** Reads `k` doubles, failing when the stream ends first. */
  function ReadDoubles(s: seq<Token>, k: nat): (r: Option<Read<seq<real>>>)
    ensures r.Some? ==> |r.value.value| == k && s == Doubles(r.value.value) + r.value.rest
    ensures |s| < k ==> r.None?
  {
    if k == 0 then Some(Read([], s))
    else if |s| == 0 || !s[0].DoubleToken? then None
    else
      match ReadDoubles(s[1..], k - 1)
      case None => None
      case Some(Read(xs, rest)) =>
        assert ([s[0].d] + xs)[1..] == xs;
        Some(Read([s[0].d] + xs, rest))
  }

  /** Reads one unit: its genes, then its tested flag, then its fitness. */
  function ReadUnit(cfg: Config, s: seq<Token>): (r: Option<Read<Unit>>)
    ensures r.Some? ==> WellShaped(cfg, r.value.value) && s == EncodeUnit(r.value.value) + r.value.rest
  {
    match ReadDoubles(s, cfg.rows * cfg.cols)
    case None => None
    case Some(Read(genes, rest)) =>
      if |rest| < 2 || !rest[0].BoolToken? || !rest[1].SingleToken? then None
      else
        var u := Unit(Reshape(genes, cfg.rows, cfg.cols), rest[0].b, rest[1].f);
        EncodeUnitPrefix(s, u, rest);
        Some(Read(u, rest[2..]))
  }

  /** A stream holding a unit's genes, then its flag and fitness, starts
      with the unit's encoding. */
  lemma EncodeUnitPrefix(s: seq<Token>, u: Unit, rest: seq<Token>)
    requires s == Doubles(Flatten(u.chromosome)) + rest
    requires |rest| >= 2 && rest[0] == BoolToken(u.tested) && rest[1] == SingleToken(u.fitness)
    ensures s == EncodeUnit(u) + rest[2..]
  {
    assert rest == [BoolToken(u.tested), SingleToken(u.fitness)] + rest[2..];
  }

  /** Reads `n` units one after the other. */
  function ReadUnits(cfg: Config, s: seq<Token>, n: nat): (r: Option<Read<seq<Unit>>>)
    ensures r.Some? ==> |r.value.value| == n && AllWellShaped(cfg, r.value.value)
    ensures r.Some? ==> s == EncodeUnits(r.value.value) + r.value.rest
    decreases n
  {
    if n == 0 then Some(Read([], s))
    else
      match ReadUnit(cfg, s)
      case None => None
      case Some(Read(u, rest)) =>
        match ReadUnits(cfg, rest, n - 1)
        case None => None
        case Some(Read(us, rest')) =>
          assert ([u] + us)[1..] == us;
          Some(Read([u] + us, rest'))
  }

  /** LoadPopulation: reads the generation and `size` units. A stream that
      ends early or holds a value of the wrong kind makes the load fail;
      whatever follows the last unit is ignored. On success, saving what was
      loaded writes back exactly the part of the file that was read. */
  function Load(cfg: Config, file: seq<Token>): (r: Option<Snapshot>)
    ensures r.Some? ==> Population(cfg, r.value.population)
    ensures r.Some? ==> |file| >= FileLength(cfg)
    ensures r.Some? ==> Save(cfg, r.value.population, r.value.generation).file == file[..FileLength(cfg)]
  {
    match ReadInt32(file)
    case None => None
    case Some(Read(generation, rest)) =>
      match ReadUnits(cfg, rest, cfg.size)
      case None => None
      case Some(Read(pop, rest')) =>
        SaveIsPrefix(cfg, file, generation, rest, pop, rest');
        Some(Snapshot(pop, generation))
  }

  /** A file that reads as a generation followed by `size` units starts
      with what saving them writes. */
  lemma SaveIsPrefix(cfg: Config, file: seq<Token>, generation: Int32, rest: seq<Token>,
                     pop: seq<Unit>, rest': seq<Token>)
    requires file == [Int32Token(generation)] + rest && rest == EncodeUnits(pop) + rest'
    requires |pop| == cfg.size && AllWellShaped(cfg, pop)
    ensures |file| >= FileLength(cfg)
    ensures Save(cfg, pop, generation).file == file[..FileLength(cfg)]
  {
    EncodeUnitsLength(cfg, pop);
    assert pop[..cfg.size] == pop;
    assert file == ([Int32Token(generation)] + EncodeUnits(pop)) + rest';
  }

  lemma {:induction false} ReadDoublesOfDoubles(xs: seq<real>, rest: seq<Token>)
    ensures ReadDoubles(Doubles(xs) + rest, |xs|) == Some(Read(xs, rest))
  {
    if |xs| > 0 {
      var s := Doubles(xs) + rest;
      ReadDoublesOfDoubles(xs[1..], rest);
      assert s[0] == DoubleToken(xs[0]);
      assert s[1..] == Doubles(xs[1..]) + rest;
      assert ReadDoubles(s[1..], |xs| - 1) == Some(Read(xs[1..], rest));
      assert [xs[0]] + xs[1..] == xs;
    } else {
      assert Doubles(xs) + rest == rest;
    }
  }

  lemma ReadUnitOfEncodeUnit(cfg: Config, u: Unit, rest: seq<Token>)
    requires WellShaped(cfg, u)
    ensures ReadUnit(cfg, EncodeUnit(u) + rest) == Some(Read(u, rest))
  {
    var genes := Flatten(u.chromosome);
    ReshapeFlatten(u.chromosome, cfg.rows, cfg.cols);
    var tail := [BoolToken(u.tested), SingleToken(u.fitness)] + rest;
    assert EncodeUnit(u) + rest == Doubles(genes) + tail;
    ReadDoublesOfDoubles(genes, tail);
    assert tail[2..] == rest;
  }

  lemma {:induction false} ReadUnitsOfEncodeUnits(cfg: Config, units: seq<Unit>, rest: seq<Token>)
    requires AllWellShaped(cfg, units)
    ensures ReadUnits(cfg, EncodeUnits(units) + rest, |units|) == Some(Read(units, rest))
  {
    if |units| > 0 {
      var s := EncodeUnits(units) + rest;
      var tail := EncodeUnits(units[1..]) + rest;
      assert s == EncodeUnit(units[0]) + tail;
      assert WellShaped(cfg, units[0]);
      ReadUnitOfEncodeUnit(cfg, units[0], tail);
      assert AllWellShaped(cfg, units[1..]) by {
        forall k | 0 <= k < |units| - 1
          ensures WellShaped(cfg, units[1..][k])
        {
          assert units[1..][k] == units[k + 1];
        }
      }
      ReadUnitsOfEncodeUnits(cfg, units[1..], rest);
      ReadUnitsStep(cfg, s, |units|, units[0], tail, units[1..], rest);
      assert [units[0]] + units[1..] == units;
    } else {
      assert EncodeUnits(units) + rest == rest;
    }
  }

  lemma ReadUnitsStep(cfg: Config, s: seq<Token>, n: nat, u: Unit, tail: seq<Token>, us: seq<Unit>, rest: seq<Token>)
    requires n > 0
    requires ReadUnit(cfg, s) == Some(Read(u, tail))
    requires ReadUnits(cfg, tail, n - 1) == Some(Read(us, rest))
    ensures ReadUnits(cfg, s, n) == Some(Read([u] + us, rest))
  {
  }

  /** Loading a saved population gives back the same generation and, for
      every unit, the same chromosome, tested flag and fitness, whatever
      bytes follow the saved ones. */
  lemma LoadSave(cfg: Config, pop: seq<Unit>, generation: Int32, extra: seq<Token>)
    requires Population(cfg, pop)
    ensures Save(cfg, pop, generation).ok
    ensures Load(cfg, Save(cfg, pop, generation).file + extra) == Some(Snapshot(pop, generation))
  {
    assert pop[..cfg.size] == pop;
    var file := Save(cfg, pop, generation).file;
    assert file + extra == [Int32Token(generation)] + (EncodeUnits(pop) + extra);
    ReadUnitsOfEncodeUnits(cfg, pop, extra);
  }

  /** Every proper prefix of a complete file is rejected by the load. */
  lemma TruncatedFileIsRejected(cfg: Config, pop: seq<Unit>, generation: Int32, k: nat)
    requires Population(cfg, pop)
    requires k < |Save(cfg, pop, generation).file|
    ensures Load(cfg, Save(cfg, pop, generation).file[..k]).None?
  {
  }

  /** A save that failed part-way leaves a file the load rejects, so a
      restart never adopts a population with units missing. */
  lemma FailedSaveIsRejected(cfg: Config, pop: seq<Unit>, generation: Int32)
    requires AllWellShaped(cfg, pop)
    requires !Save(cfg, pop, generation).ok
    ensures Load(cfg, Save(cfg, pop, generation).file).None?
  {
  }
}
