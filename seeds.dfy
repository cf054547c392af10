/** Reading the seed points: the list comprehension that turns the input
    lines into tuples of floats, the dimensionality checks on them, and the
    start-up sequence that combines these with the option checks and the
    radii. */
module Seeds {
  import opened Wrappers
  import opened Floats
  import opened Text
  import opened PointSet
  import opened Config

  /** A stripped input line the reader keeps: not empty and not a comment. */
  predicate Kept(x: string)
  {
    x != [] && !StartsWithHash(x)
  }

  /** The stripped lines that are kept, in input order. */
  function KeptLines(lines: seq<string>): (r: seq<string>)
    ensures |r| <= |lines|
    ensures forall n :: 0 <= n < |r| ==> Kept(r[n])
    decreases |lines|
  {
    if lines == [] then []
    else
      var x := Strip(lines[|lines| - 1]);
      KeptLines(lines[..|lines| - 1]) + (if Kept(x) then [x] else [])
  }

  /** Reading two pieces of input keeps the lines of each in turn. */
  lemma {:induction false} KeptLinesAppend(a: seq<string>, b: seq<string>)
    ensures KeptLines(a + b) == KeptLines(a) + KeptLines(b)
    decreases |b|
  {
    if b == [] {
      assert a + b == a;
    } else {
      var b' := b[..|b| - 1];
      var x := Strip(b[|b| - 1]);
      var tail := if Kept(x) then [x] else [];
      KeptLinesAppend(a, b');
      assert (a + b)[..|a + b| - 1] == a + b';
      assert (a + b)[|a + b| - 1] == b[|b| - 1];
      assert KeptLines(a + b) == KeptLines(a + b') + tail;
      assert KeptLines(b) == KeptLines(b') + tail;
    }
  }

  /** A line is kept exactly when it is non-empty and not a comment once
      stripped, and what is kept is the stripped line. */
  lemma {:induction false} KeptLinesMembers(lines: seq<string>, x: string)
    ensures x in KeptLines(lines) <==> Kept(x) && exists i :: 0 <= i < |lines| && Strip(lines[i]) == x
    decreases |lines|
  {
    if lines != [] {
      var l := lines[..|lines| - 1];
      KeptLinesMembers(l, x);
      if exists i :: 0 <= i < |lines| - 1 && Strip(l[i]) == x {
        var i :| 0 <= i < |lines| - 1 && Strip(l[i]) == x;
        assert Strip(lines[i]) == x;
      }
      if exists i :: 0 <= i < |lines| && Strip(lines[i]) == x {
        var i :| 0 <= i < |lines| && Strip(lines[i]) == x;
        if i < |lines| - 1 {
          assert Strip(l[i]) == x;
        }
      }
    }
  }

  /** `tuple(map(float, tokens))`: `None` is the `ValueError` of the first
      token that is not a number. */
  function ParseTuple(tokens: seq<string>, parse: string -> Option<Ext>): (r: Option<seq<Ext>>)
    ensures r.None? <==> exists j :: 0 <= j < |tokens| && parse(tokens[j]).None?
    ensures r.Some? ==> (|r.value| == |tokens|
                      && forall j :: 0 <= j < |tokens| ==> Some(r.value[j]) == parse(tokens[j]))
    decreases |tokens|
  {
    if tokens == [] then Some([])
    else
      match parse(tokens[0])
      case None => None
      case Some(v) =>
        match ParseTuple(tokens[1..], parse)
        case None => None
        case Some(rest) => Some([v] + rest)
  }

  /** The tuples of the kept lines, in order, each token one entry. */
  function ParseAll(kept: seq<string>, parse: string -> Option<Ext>): (r: Option<seq<seq<Ext>>>)
    ensures r.None? <==> exists i :: 0 <= i < |kept| && ParseTuple(Words(kept[i]), parse).None?
    ensures r.Some? ==> (|r.value| == |kept|
                      && forall i :: 0 <= i < |kept| ==> Some(r.value[i]) == ParseTuple(Words(kept[i]), parse))
    decreases |kept|
  {
    if kept == [] then Some([])
    else
      match ParseTuple(Words(kept[0]), parse)
      case None => None
      case Some(t) =>
        match ParseAll(kept[1..], parse)
        case None => None
        case Some(rest) => Some([t] + rest)
  }

  /** The seed list comprehension: one tuple of floats per kept line. */
  function ParseSeeds(lines: seq<string>, parse: string -> Option<Ext>): Option<seq<seq<Ext>>>
  {
    ParseAll(KeptLines(lines), parse)
  }

  /** Every parsed seed tuple has at least one entry: a kept line, being
      non-empty after `strip()`, has a first token. So the reader's check for
      an empty point can never fire. */
  lemma SeedTuplesNonEmpty(lines: seq<string>, parse: string -> Option<Ext>)
    requires ParseSeeds(lines, parse).Some?
    ensures forall i :: 0 <= i < |ParseSeeds(lines, parse).value| ==> |ParseSeeds(lines, parse).value[i]| >= 1
  {
    var kept := KeptLines(lines);
    var ts := ParseSeeds(lines, parse).value;
    forall i | 0 <= i < |ts|
      ensures |ts[i]| >= 1
    {
      assert Kept(kept[i]);
      assert exists j :: 0 <= j < |lines| && Strip(lines[j]) == kept[i] by {
        assert kept[i] in kept;
        KeptLinesMembers(lines, kept[i]);
      }
      var j :| 0 <= j < |lines| && Strip(lines[j]) == kept[i];
      StripSpec(lines[j]);
      assert !IsSpace(kept[i][0]);
      WordsEmptyIff(kept[i]);
    }
  }

  /** The errors the seed reader reports, with the 0-based point number. */
  datatype SeedError =
    | NoPointsNoDimensionality
    | EmptyPoint(index: nat)
    | NoParameters(index: nat)
    | MismatchedDimensionality(index: nat)

  /** The checks made on point number `i`, in their order. */
  function PointError(t: seq<Ext>, i: nat, dim: int): (r: Option<SeedError>)
    ensures r.None? <==> |t| >= 2 && |t| - 1 == dim
    ensures |t| == 0 ==> r == Some(EmptyPoint(i))
    ensures |t| == 1 ==> r == Some(NoParameters(i))
    ensures |t| >= 2 && |t| - 1 != dim ==> r == Some(MismatchedDimensionality(i))
  {
    if |t| == 0 then Some(EmptyPoint(i))
    else if |t| == 1 then Some(NoParameters(i))
    else if |t| - 1 != dim then Some(MismatchedDimensionality(i))
    else None
  }

  /** The error of the first point of `tuples` that fails a check, or
      nothing when every point passes. */
  function FirstPointError(tuples: seq<seq<Ext>>, dim: int): (r: Option<SeedError>)
    ensures r.None? <==> forall i :: 0 <= i < |tuples| ==> PointError(tuples[i], i, dim).None?
    ensures r.Some? ==> exists k :: 0 <= k < |tuples| && r == PointError(tuples[k], k, dim)
                                   && forall j :: 0 <= j < k ==> PointError(tuples[j], j, dim).None?
    decreases |tuples|
  {
    if tuples == [] then None
    else
      var n := |tuples| - 1;
      var e := FirstPointError(tuples[..n], dim);
      assert forall i :: 0 <= i < n ==> tuples[..n][i] == tuples[i];
      if e.Some? then e else PointError(tuples[n], n, dim)
  }

  /** The `for i, point in enumerate(existing_points)` loop: reports the first
      point that fails a check, or nothing when every point has a score and
      exactly `dim` coordinates. */
  method CheckPoints(tuples: seq<seq<Ext>>, dim: int) returns (err: Option<SeedError>)
    ensures err == FirstPointError(tuples, dim)
    ensures err.None? <==> forall i :: 0 <= i < |tuples| ==> |tuples[i]| >= 2 && |tuples[i]| - 1 == dim
  {
    var i := 0;
    while i < |tuples|
      invariant 0 <= i <= |tuples|
      invariant FirstPointError(tuples[..i], dim).None?
    {
      assert tuples[..i + 1][..i] == tuples[..i];
      var e := PointError(tuples[i], i, dim);
      if e.Some? {
        FirstPointErrorPrefix(tuples, dim, i + 1);
        return e;
      }
      i := i + 1;
    }
    assert tuples[..i] == tuples;
    return None;
  }

  /** Once a prefix of the points has an error, later points do not change
      which error is reported. */
  lemma {:induction false} FirstPointErrorPrefix(tuples: seq<seq<Ext>>, dim: int, i: nat)
    requires i <= |tuples| && FirstPointError(tuples[..i], dim).Some?
    ensures FirstPointError(tuples, dim) == FirstPointError(tuples[..i], dim)
    decreases |tuples| - i
  {
    if i < |tuples| {
      var n := |tuples| - 1;
      assert tuples[..n][..i] == tuples[..i];
      FirstPointErrorPrefix(tuples[..n], dim, i);
      assert FirstPointError(tuples, dim) == FirstPointError(tuples[..n], dim);
    } else {
      assert tuples[..i] == tuples;
    }
  }

  /** The dimensionality of the run: the option when given, otherwise one
      less than the length of the first seed point. */
  function ChosenDim(given: Option<int>, tuples: seq<seq<Ext>>): int
    requires given.Some? || tuples != []
  {
    if given.Some? then given.value else |tuples[0]| - 1
  }

  /** A point read from a checked seed tuple. */
  function ToPoint(t: seq<Ext>): Point
    requires |t| >= 1
  {
    Point(t[0], t[1..])
  }

  /** Everything the start-up sequence settles: the settings and the seed
      points in input order. */
  datatype Setup = Setup(cfg: Config, seeds: seq<Point>)

  /** The ways the start-up sequence ends the run. */
  datatype StartError =
    | InvalidOption(option: ConfigError)
    | UnparsableSeed
    | InvalidSeeds(seed: SeedError)
    | NoRadius

  /** Start-up, in the order the program makes its checks: the options, the
      seed comprehension, the dimensionality (given or inferred), the points,
      then the radii padded to the dimensionality. */
  method Prepare(o: Options, lines: seq<string>, parse: string -> Option<Ext>, radii: seq<real>)
    returns (r: Result<Setup, StartError>)
    ensures ValidateOptions(o).Some? ==> r == Err(InvalidOption(ValidateOptions(o).value))
    ensures ValidateOptions(o).None? && ParseSeeds(lines, parse).None? ==> r == Err(UnparsableSeed)
    ensures ValidateOptions(o).None? && ParseSeeds(lines, parse) == Some([]) && o.dimensionality.None?
            ==> r == Err(InvalidSeeds(NoPointsNoDimensionality))
    ensures ValidateOptions(o).None? && ParseSeeds(lines, parse).Some?
            && (o.dimensionality.Some? || ParseSeeds(lines, parse).value != [])
            && FirstPointError(ParseSeeds(lines, parse).value, ChosenDim(o.dimensionality, ParseSeeds(lines, parse).value)).Some?
            ==> r == Err(InvalidSeeds(FirstPointError(ParseSeeds(lines, parse).value,
                                                      ChosenDim(o.dimensionality, ParseSeeds(lines, parse).value)).value))
    ensures ValidateOptions(o).None? && ParseSeeds(lines, parse).Some?
            && (o.dimensionality.Some? || ParseSeeds(lines, parse).value != [])
            && FirstPointError(ParseSeeds(lines, parse).value, ChosenDim(o.dimensionality, ParseSeeds(lines, parse).value)).None?
            && radii == []
            ==> r == Err(NoRadius)
    ensures r.Ok? <==>
      ValidateOptions(o).None? && ParseSeeds(lines, parse).Some?
      && (o.dimensionality.Some? || ParseSeeds(lines, parse).value != [])
      && (forall i :: 0 <= i < |ParseSeeds(lines, parse).value| ==>
            PointError(ParseSeeds(lines, parse).value[i], i, ChosenDim(o.dimensionality, ParseSeeds(lines, parse).value)).None?)
      && radii != []
    ensures r.Ok? ==>
      var ts := ParseSeeds(lines, parse).value;
      var d := ChosenDim(o.dimensionality, ts);
      && ValidConfig(r.value.cfg)
      && r.value.cfg == Config(o.mode, o.staleThreshold, o.staleCount, o.numProposals, d, PadRadii(radii, d).value)
      && |r.value.seeds| == |ts|
      && forall i :: 0 <= i < |ts| ==> |ts[i]| >= 1 && r.value.seeds[i] == ToPoint(ts[i]) && |r.value.seeds[i].coords| == d
  {
    var optionError := ValidateOptions(o);
    if optionError.Some? {
      return Err(InvalidOption(optionError.value));
    }
    var parsed := ParseSeeds(lines, parse);
    if parsed.None? {
      return Err(UnparsableSeed);
    }
    var tuples := parsed.value;
    if tuples == [] && o.dimensionality.None? {
      return Err(InvalidSeeds(NoPointsNoDimensionality));
    }
    var dim := ChosenDim(o.dimensionality, tuples);
    var seedError := CheckPoints(tuples, dim);
    if seedError.Some? {
      return Err(InvalidSeeds(seedError.value));
    }
    var padded := PadRadii(radii, dim);
    if padded.None? {
      return Err(NoRadius);
    }
    assert dim >= 1 by {
      if o.dimensionality.None? {
        assert |tuples[0]| >= 2;
      }
    }
    var cfg := Config(o.mode, o.staleThreshold, o.staleCount, o.numProposals, dim, padded.value);
    var seeds := seq(|tuples|, i requires 0 <= i < |tuples| => ToPoint(tuples[i]));
    return Ok(Setup(cfg, seeds));
  }
}
