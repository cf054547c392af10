/** The optimiser's `main` loop as it runs: the list of points, the
    staleness variables and what has been written are updated in place,
    pass by pass, as the program does. Each method is proved to agree with
    the functions of module `Loop`. */
module Search {
  import opened Wrappers
  import opened Floats
  import opened Text
  import opened PointSet
  import opened Config
  import opened Seeds
  import opened Sampler
  import opened Evaluator
  import opened Convergence
  import opened Loop

  class Search {
    const cfg: Config
    var points: seq<Point>
    var lastBest: Ext
    var numStale: nat
    var out: seq<Record>
    var status: Status

    /** The variables of the loop, as a value. */
    function Snapshot(): State
      reads this
    {
      State(points, Tracker(lastBest, numStale), out, status)
    }

    predicate Valid()
      reads this
    {
      ValidConfig(cfg) && AllDim(points, cfg.dim)
    }

    /** `pyrandomsearch.py` lines 227-244: the seed points are sorted and listed, and the
        staleness variables start at an infinite best value and no stale
        step. */
    constructor(setup: Setup)
      requires ValidConfig(setup.cfg) && AllDim(setup.seeds, setup.cfg.dim)
      ensures Valid() && cfg == setup.cfg
      ensures Snapshot() == StartState(setup)
    {
      cfg := setup.cfg;
      var sorted := StableSort(setup.seeds, setup.cfg.mode);
      SortKeepsDims(setup.seeds, setup.cfg.mode, setup.cfg.dim);
      var listing: seq<Record> := [];
      for i := 0 to |sorted|
        invariant listing == Listing(sorted[..i])
      {
        listing := listing + [SeedLine(sorted[i])];
      }
      assert sorted[..|sorted|] == sorted;
      points := sorted;
      lastBest := if setup.cfg.mode == Min then NegInf else PosInf;
      numStale := 0;
      out := listing;
      status := Running;
    }

    /** `handle_eval_results`: reads the score from the output, then appends
        and writes the point, or writes the error and fails the run. */
    method HandleEvalResults(coords: seq<Ext>, stdout: string, parse: string -> Option<Ext>)
      requires status.Running?
      modifies this
      ensures Snapshot() == HandleOne(old(Snapshot()), coords, ScoreOf(stdout, parse))
    {
      var score := ExtractScore(SplitOn(stdout, '\n'), parse);
      if score.None? {
        out := out + [Unscored(coords)];
        status := Failed(NoScore);
        return;
      }
      var p := Point(score.value, coords);
      points := points + [p];
      out := out + [NewPoint(p)];
    }

    /** `pyrandomsearch.py` lines 277-283: one proposal per draw, all from the same best point;
        a zero norm raises before the remaining proposals are generated. */
    static method GenerateProposals(best: Point, radii: seq<real>, draws: seq<Draw>)
      returns (props: Option<seq<seq<Ext>>>)
      requires |best.coords| <= |radii| && DrawsFit(draws, |best.coords|)
      ensures props == Proposals(best, radii, draws)
    {
      var acc: seq<seq<Ext>> := [];
      for i := 0 to |draws|
        invariant Proposals(best, radii, draws[..i]) == Some(acc)
      {
        assert draws[..i + 1][..i] == draws[..i];
        var q := GenerateNewPoint(best, radii, draws[i]);
        if q.None? {
          return None;
        }
        acc := acc + [q.value];
      }
      assert draws[..|draws|] == draws;
      return Some(acc);
    }

    /** `pyrandomsearch.py` lines 286-287: the results handled in proposal order; the first
        output without a score ends the run. */
    method HandleResults(props: seq<seq<Ext>>, outputs: seq<string>, parse: string -> Option<Ext>)
      requires status.Running? && |props| == |outputs|
      modifies this
      ensures Snapshot() == HandleAll(old(Snapshot()), props, Scores(outputs, parse))
    {
      ghost var start := Snapshot();
      ghost var scores := Scores(outputs, parse);
      for i := 0 to |props|
        invariant Snapshot() == HandleAll(start, props[..i], scores[..i])
        invariant status.Running?
      {
        assert props[..i + 1][..i] == props[..i] && scores[..i + 1][..i] == scores[..i];
        HandleEvalResults(props[i], outputs[i], parse);
        if !status.Running? {
          HandleAllStops(start, props, scores, i + 1);
          return;
        }
      }
      assert props[..|props|] == props && scores[..|scores|] == scores;
    }

    /** One pass of the `while True` loop, lines 252-287. */
    method Step(draws: seq<Draw>, outputs: seq<string>, parse: string -> Option<Ext>)
      requires Valid() && status.Running?
      requires |draws| == |outputs| == cfg.numProposals && DrawsFit(draws, cfg.dim)
      modifies this
      ensures Valid()
      ensures Snapshot() == Iterate(cfg, old(Snapshot()), draws, outputs, parse)
    {
      ghost var s := Snapshot();
      SortKeepsDims(points, cfg.mode, cfg.dim);
      points := StableSort(points, cfg.mode);
      var best := BestPoint(points, cfg.mode, cfg.dim);
      ghost var o := Observe(s.tracker, best.score, cfg.threshold, cfg.staleCount);
      if IsStale(best.score, lastBest, cfg.threshold) {
        numStale := numStale + 1;
      }
      assert numStale == o.next.numStale;
      if numStale >= cfg.staleCount {
        out := out + [BestLine(best)];
        status := Converged(best);
        assert o.halted;
        return;
      }
      lastBest := best.score;
      assert Snapshot().tracker == o.next && !o.halted;
      var props := GenerateProposals(best, cfg.radii, draws);
      if props.None? {
        status := Failed(ZeroNorm);
        return;
      }
      ghost var mid := Snapshot();
      assert mid == State(points, o.next, s.out, Running);
      HandleResults(props.value, outputs, parse);
      assert Snapshot() == HandleAll(mid, props.value, Scores(outputs, parse));
      assert Snapshot() == Iterate(cfg, s, draws, outputs, parse);
    }

    /** The loop over the given passes, until one converges or fails. */
    method Run(rounds: seq<Round>, parse: string -> Option<Ext>)
      requires Valid() && RoundsFit(cfg, rounds)
      modifies this
      ensures Valid()
      ensures Snapshot() == RunSpec(cfg, old(Snapshot()), rounds, parse)
    {
      ghost var s := Snapshot();
      var j := 0;
      while j < |rounds| && status.Running?
        invariant 0 <= j <= |rounds| && Valid()
        invariant Snapshot() == RunSpec(cfg, s, rounds[..j], parse)
      {
        assert rounds[..j + 1][..j] == rounds[..j];
        Step(rounds[j].draws, rounds[j].outputs, parse);
        j := j + 1;
      }
      RunStops(cfg, s, rounds, parse, j);
    }
  }
}
