/** One pass of the optimiser's `while True` loop (`pyrandomsearch.py` lines 245-287), as a
    function of the state before it: sort, pick the best point, test for
    staleness, generate the proposals from that best point, and add each
    evaluated proposal to the list. The Gaussian draws and the evaluators'
    standard outputs are inputs. */
module Loop {
  import opened Wrappers
  import opened Floats
  import opened PointSet
  import opened Config
  import opened Seeds
  import opened Sampler
  import opened Evaluator
  import opened Convergence

  /** Why a run ends with exit status 1 inside the loop: a Gaussian
      direction of norm zero (`ZeroDivisionError`), or an evaluator output
      with no score in it. */
  datatype Failure = ZeroNorm | NoScore

  /** Whether the loop goes on, has converged on a best point, or has
      stopped with an error. */
  datatype Status = Running | Converged(best: Point) | Failed(reason: Failure)

  /** What the optimiser writes: the sorted seed points, each evaluated
      point, the error for an output without a score (followed by the
      point with score `nan`), and the best point at convergence. */
  datatype Record = SeedLine(p: Point) | NewPoint(p: Point) | Unscored(coords: seq<Ext>) | BestLine(p: Point)

  /** The variables of the main loop: `existing_points`, `last_best_value`
      with `num_stale_steps`, what has been written, and the status. */
  datatype State = State(points: seq<Point>, tracker: Tracker, out: seq<Record>, status: Status)

  /** Every point has `dim` coordinates. */
  predicate AllDim(points: seq<Point>, dim: nat)
  {
    forall i :: 0 <= i < |points| ==> |points[i].coords| == dim
  }

  lemma SortKeepsDims(s: seq<Point>, m: Mode, dim: nat)
    requires AllDim(s, dim)
    ensures AllDim(StableSort(s, m), dim)
  {
    var t := StableSort(s, m);
    StableSortPermutes(s, m);
    forall i | 0 <= i < |t|
      ensures |t[i].coords| == dim
    {
      assert t[i] in multiset(s);
    }
  }

  /** The listing of the seed points. */
  function Listing(points: seq<Point>): (r: seq<Record>)
    ensures |r| == |points| && forall i :: 0 <= i < |points| ==> r[i] == SeedLine(points[i])
  {
    seq(|points|, i requires 0 <= i < |points| => SeedLine(points[i]))
  }

  /** The state when the loop is entered: the seed points sorted and
      listed, `last_best_value` infinite and no stale step. */
  function StartState(setup: Setup): (r: State)
    ensures r.points == StableSort(setup.seeds, setup.cfg.mode)
    ensures multiset(r.points) == multiset(setup.seeds) && Sorted(r.points, setup.cfg.mode)
    ensures r.out == Listing(r.points) && r.tracker == InitialTracker(setup.cfg.mode) && r.status == Running
  {
    var sorted := StableSort(setup.seeds, setup.cfg.mode);
    StableSortSorted(setup.seeds, setup.cfg.mode);
    StableSortPermutes(setup.seeds, setup.cfg.mode);
    State(sorted, InitialTracker(setup.cfg.mode), Listing(sorted), Running)
  }

  /** The draws of one step have the shape the program generates: one
      Gaussian per dimension. */
  predicate DrawsFit(draws: seq<Draw>, dim: nat)
  {
    forall i :: 0 <= i < |draws| ==> |draws[i].delta| == dim
  }

  /** The proposals of one step, all generated from the same best point;
      `None` when one of them divides by a zero norm. */
  function Proposals(best: Point, radii: seq<real>, draws: seq<Draw>): (r: Option<seq<seq<Ext>>>)
    requires |best.coords| <= |radii| && DrawsFit(draws, |best.coords|)
    ensures r.None? <==> exists i :: 0 <= i < |draws| && GenerateNewPoint(best, radii, draws[i]).None?
    ensures r.Some? ==> |r.value| == |draws|
    ensures r.Some? ==> forall i :: 0 <= i < |draws| ==> r.value[i] == GenerateNewPoint(best, radii, draws[i]).value
    decreases |draws|
  {
    if draws == [] then Some([])
    else
      var init := Proposals(best, radii, draws[..|draws| - 1]);
      var q := GenerateNewPoint(best, radii, draws[|draws| - 1]);
      if init.None? || q.None? then None else Some(init.value + [q.value])
  }

  /** `handle_eval_results` for one proposal, given the score found in its
      output: the score completes the point, which is appended to the list
      and written; with no score the error is written and the run fails. */
  function HandleOne(s: State, coords: seq<Ext>, score: Option<Ext>): (r: State)
    ensures r.tracker == s.tracker
    ensures score.Some? ==>
      && r.points == s.points + [Point(score.value, coords)]
      && r.out == s.out + [NewPoint(Point(score.value, coords))]
      && r.status == s.status
    ensures score.None? ==>
      r.points == s.points && r.out == s.out + [Unscored(coords)] && r.status == Failed(NoScore)
  {
    if score.None? then s.(out := s.out + [Unscored(coords)], status := Failed(NoScore))
    else
      var p := Point(score.value, coords);
      s.(points := s.points + [p], out := s.out + [NewPoint(p)])
  }

  /** The evaluation results handled in proposal order, up to the first
      failure. */
  function HandleAll(s: State, props: seq<seq<Ext>>, scores: seq<Option<Ext>>): State
    requires |props| == |scores|
    decreases |props|
  {
    if props == [] then s
    else
      var t := HandleAll(s, props[..|props| - 1], scores[..|scores| - 1]);
      if t.status.Running? then HandleOne(t, props[|props| - 1], scores[|scores| - 1]) else t
  }

  /** The number of scores, from the first, that are present. */
  function LeadingScored(scores: seq<Option<Ext>>): (k: nat)
    ensures k <= |scores|
    ensures forall i :: 0 <= i < k ==> scores[i].Some?
    ensures k < |scores| ==> scores[k].None?
    decreases |scores|
  {
    if scores == [] then 0
    else
      var k := LeadingScored(scores[..|scores| - 1]);
      if k == |scores| - 1 && scores[|scores| - 1].Some? then k + 1 else k
  }

  /** The first `k` proposals completed with their scores. */
  function Scored(props: seq<seq<Ext>>, scores: seq<Option<Ext>>, k: nat): (r: seq<Point>)
    requires k <= |props| == |scores|
    requires forall i :: 0 <= i < k ==> scores[i].Some?
    ensures |r| == k
    ensures forall i :: 0 <= i < k ==> r[i] == Point(scores[i].value, props[i])
  {
    seq(k, i requires 0 <= i < k => Point(scores[i].value, props[i]))
  }

  /** The lines written for the given evaluated points. */
  function Announced(ps: seq<Point>): (r: seq<Record>)
    ensures |r| == |ps| && forall i :: 0 <= i < |ps| ==> r[i] == NewPoint(ps[i])
  {
    seq(|ps|, i requires 0 <= i < |ps| => NewPoint(ps[i]))
  }

  /** Handling the results of a step appends the proposals whose outputs hold
      a score, each with its score, in proposal order, up to the first output
      without one; that output ends the run with the error written and
      nothing more appended. The tracker is untouched. */
  lemma {:induction false} HandleAllSpec(s: State, props: seq<seq<Ext>>, scores: seq<Option<Ext>>)
    requires s.status.Running? && |props| == |scores|
    ensures var r := HandleAll(s, props, scores);
      var k := LeadingScored(scores);
      && r.points == s.points + Scored(props, scores, k)
      && r.tracker == s.tracker
      && (k == |props| ==> r.status == Running && r.out == s.out + Announced(Scored(props, scores, k)))
      && (k < |props| ==>
            r.status == Failed(NoScore)
            && r.out == s.out + Announced(Scored(props, scores, k)) + [Unscored(props[k])])
    decreases |props|
  {
    if props != [] {
      var n := |props| - 1;
      var p', o' := props[..n], scores[..n];
      HandleAllSpec(s, p', o');
      var t := HandleAll(s, p', o');
      var k' := LeadingScored(o');
      assert HandleAll(s, props, scores) == if t.status.Running? then HandleOne(t, props[n], scores[n]) else t;
      assert LeadingScored(scores) == if k' == n && scores[n].Some? then k' + 1 else k';
      ScoredOfPrefix(props, scores, k');
      if k' < n {
        assert props[k'] == p'[k'];
      } else if scores[n].Some? {
        ScoredExtend(props, scores);
      }
    }
  }

  lemma ScoredOfPrefix(props: seq<seq<Ext>>, scores: seq<Option<Ext>>, k: nat)
    requires 0 < |props| == |scores| && k <= |props| - 1
    requires forall i :: 0 <= i < k ==> scores[i].Some?
    ensures Scored(props[..|props| - 1], scores[..|scores| - 1], k) == Scored(props, scores, k)
  {
  }

  lemma ScoredExtend(props: seq<seq<Ext>>, scores: seq<Option<Ext>>)
    requires 0 < |props| == |scores|
    requires forall i :: 0 <= i < |scores| ==> scores[i].Some?
    ensures var n := |props| - 1;
      var prev := Scored(props, scores, n);
      var p := Point(scores[n].value, props[n]);
      && Scored(props, scores, n + 1) == prev + [p]
      && Announced(prev + [p]) == Announced(prev) + [NewPoint(p)]
  {
  }

  /** The score of each evaluator output. */
  function Scores(outputs: seq<string>, parse: string -> Option<Ext>): (r: seq<Option<Ext>>)
    ensures |r| == |outputs| && forall i :: 0 <= i < |outputs| ==> r[i] == ScoreOf(outputs[i], parse)
  {
    seq(|outputs|, i requires 0 <= i < |outputs| => ScoreOf(outputs[i], parse))
  }

  /** One pass of the loop from a running state: the list is sorted, its
      best point taken, and the staleness test made; a converged run writes
      the best point and stops; otherwise `last_best_value` becomes the best
      score, the proposals are generated and their results handled. */
  function Iterate(cfg: Config, s: State, draws: seq<Draw>, outputs: seq<string>, parse: string -> Option<Ext>): (r: State)
    requires ValidConfig(cfg) && AllDim(s.points, cfg.dim)
    requires |draws| == |outputs| == cfg.numProposals && DrawsFit(draws, cfg.dim)
    ensures AllDim(r.points, cfg.dim)
  {
    var sorted := StableSort(s.points, cfg.mode);
    SortKeepsDims(s.points, cfg.mode, cfg.dim);
    var best := BestPoint(sorted, cfg.mode, cfg.dim);
    var o := Observe(s.tracker, best.score, cfg.threshold, cfg.staleCount);
    if o.halted then State(sorted, o.next, s.out + [BestLine(best)], Converged(best))
    else
      var props := Proposals(best, cfg.radii, draws);
      if props.None? then State(sorted, o.next, s.out, Failed(ZeroNorm))
      else
        var scores := Scores(outputs, parse);
        HandleAllSpec(State(sorted, o.next, s.out, Running), props.value, scores);
        HandleAll(State(sorted, o.next, s.out, Running), props.value, scores)
  }

  /** The best point of a pass: the last point of the sorted list, or the
      origin when the list is empty. */
  function BestOf(cfg: Config, s: State): (p: Point)
    requires AllDim(s.points, cfg.dim)
    ensures |p.coords| == cfg.dim
  {
    SortKeepsDims(s.points, cfg.mode, cfg.dim);
    BestPoint(StableSort(s.points, cfg.mode), cfg.mode, cfg.dim)
  }

  /** The staleness test of a pass, with the converged case: the stale
      counter grows by one exactly when the pass is stale, the run converges
      exactly when the counter reaches `stale_count`, and then it writes the
      best point and keeps `last_best_value`; otherwise `last_best_value`
      becomes the best score of the pass. */
  lemma IterateStaleTest(cfg: Config, s: State, draws: seq<Draw>, outputs: seq<string>, parse: string -> Option<Ext>)
    requires ValidConfig(cfg) && AllDim(s.points, cfg.dim)
    requires |draws| == |outputs| == cfg.numProposals && DrawsFit(draws, cfg.dim)
    ensures var r := Iterate(cfg, s, draws, outputs, parse);
      var best := BestOf(cfg, s);
      && r.tracker.numStale == s.tracker.numStale + (if IsStale(best.score, s.tracker.lastBest, cfg.threshold) then 1 else 0)
      && (r.status.Converged? <==> r.tracker.numStale >= cfg.staleCount)
      && (r.status.Converged? ==>
            && r.status.best == best
            && r.tracker.lastBest == s.tracker.lastBest
            && r.points == StableSort(s.points, cfg.mode)
            && r.out == s.out + [BestLine(best)])
      && (!r.status.Converged? ==> r.tracker.lastBest == best.score)
  {
    var sorted := StableSort(s.points, cfg.mode);
    SortKeepsDims(s.points, cfg.mode, cfg.dim);
    var best := BestPoint(sorted, cfg.mode, cfg.dim);
    var o := Observe(s.tracker, best.score, cfg.threshold, cfg.staleCount);
    if !o.halted {
      var props := Proposals(best, cfg.radii, draws);
      if props.Some? {
        HandleAllSpec(State(sorted, o.next, s.out, Running), props.value, Scores(outputs, parse));
      }
    }
  }

  /** A pass that does not converge fails with `ZeroDivisionError` exactly
      when one of its Gaussian directions has norm zero; nothing is added to
      the list then. */
  lemma IterateZeroNorm(cfg: Config, s: State, draws: seq<Draw>, outputs: seq<string>, parse: string -> Option<Ext>)
    requires ValidConfig(cfg) && AllDim(s.points, cfg.dim)
    requires |draws| == |outputs| == cfg.numProposals && DrawsFit(draws, cfg.dim)
    ensures var r := Iterate(cfg, s, draws, outputs, parse);
      r.status == Failed(ZeroNorm) <==>
        !r.status.Converged? && exists i :: 0 <= i < |draws| && draws[i].norm == 0.0
    ensures var r := Iterate(cfg, s, draws, outputs, parse);
      r.status == Failed(ZeroNorm) ==> r.points == StableSort(s.points, cfg.mode) && r.out == s.out
  {
    var sorted := StableSort(s.points, cfg.mode);
    SortKeepsDims(s.points, cfg.mode, cfg.dim);
    var best := BestPoint(sorted, cfg.mode, cfg.dim);
    var o := Observe(s.tracker, best.score, cfg.threshold, cfg.staleCount);
    if !o.halted {
      var props := Proposals(best, cfg.radii, draws);
      if props.Some? {
        HandleAllSpec(State(sorted, o.next, s.out, Running), props.value, Scores(outputs, parse));
        forall i | 0 <= i < |draws|
          ensures draws[i].norm != 0.0
        {
          assert GenerateNewPoint(best, cfg.radii, draws[i]).Some?;
        }
      }
    }
  }

  /** A pass that generates its proposals adds, after the sorted list, each
      proposal whose output holds a score, with the last score in that
      output, in proposal order, up to the first output without a score,
      which fails the run. Every proposal is generated from the best point
      of the pass. A pass that completes adds exactly `num_proposals`
      points and loses none. */
  lemma IterateAppends(cfg: Config, s: State, draws: seq<Draw>, outputs: seq<string>, parse: string -> Option<Ext>)
    requires ValidConfig(cfg) && AllDim(s.points, cfg.dim)
    requires |draws| == |outputs| == cfg.numProposals && DrawsFit(draws, cfg.dim)
    requires !Iterate(cfg, s, draws, outputs, parse).status.Converged?
    requires forall i :: 0 <= i < |draws| ==> draws[i].norm != 0.0
    ensures var r := Iterate(cfg, s, draws, outputs, parse);
      var best := BestOf(cfg, s);
      var scores := Scores(outputs, parse);
      var k := LeadingScored(scores);
      && |r.points| == |s.points| + k
      && r.points[..|s.points|] == StableSort(s.points, cfg.mode)
      && (forall i :: 0 <= i < k ==>
            r.points[|s.points| + i] == Point(ScoreOf(outputs[i], parse).value, GenerateNewPoint(best, cfg.radii, draws[i]).value))
      && (r.status == Running <==> k == cfg.numProposals)
      && (r.status != Running ==> r.status == Failed(NoScore))
      && multiset(s.points) <= multiset(r.points)
  {
    var sorted := StableSort(s.points, cfg.mode);
    StableSortPermutes(s.points, cfg.mode);
    var best := BestOf(cfg, s);
    var o := Observe(s.tracker, best.score, cfg.threshold, cfg.staleCount);
    var props := Proposals(best, cfg.radii, draws);
    assert props.Some? by {
      forall i | 0 <= i < |draws|
        ensures GenerateNewPoint(best, cfg.radii, draws[i]).Some?
      {
      }
    }
    var scores := Scores(outputs, parse);
    IterateHandles(cfg, s, draws, outputs, parse);
    HandleAllSpec(State(sorted, o.next, s.out, Running), props.value, scores);
    var r := Iterate(cfg, s, draws, outputs, parse);
    var k := LeadingScored(scores);
    assert r.points == sorted + Scored(props.value, scores, k);
    assert r.points[..|s.points|] == sorted;
  }

  /** A pass that does not converge and generates its proposals is the
      handling of their results, from the sorted list and the updated
      tracker. */
  lemma IterateHandles(cfg: Config, s: State, draws: seq<Draw>, outputs: seq<string>, parse: string -> Option<Ext>)
    requires ValidConfig(cfg) && AllDim(s.points, cfg.dim)
    requires |draws| == |outputs| == cfg.numProposals && DrawsFit(draws, cfg.dim)
    requires !Iterate(cfg, s, draws, outputs, parse).status.Converged?
    requires Proposals(BestOf(cfg, s), cfg.radii, draws).Some?
    ensures var sorted := StableSort(s.points, cfg.mode);
      var o := Observe(s.tracker, BestOf(cfg, s).score, cfg.threshold, cfg.staleCount);
      && !o.halted
      && Iterate(cfg, s, draws, outputs, parse)
           == HandleAll(State(sorted, o.next, s.out, Running), Proposals(BestOf(cfg, s), cfg.radii, draws).value, Scores(outputs, parse))
  {
  }

  /** What a pass that generates its proposals writes: each proposal whose
      output holds a score, with that score, in proposal order, and, when an
      output holds none, the error for that proposal after them. */
  lemma IterateWrites(cfg: Config, s: State, draws: seq<Draw>, outputs: seq<string>, parse: string -> Option<Ext>)
    requires ValidConfig(cfg) && AllDim(s.points, cfg.dim)
    requires |draws| == |outputs| == cfg.numProposals && DrawsFit(draws, cfg.dim)
    requires !Iterate(cfg, s, draws, outputs, parse).status.Converged?
    requires Proposals(BestOf(cfg, s), cfg.radii, draws).Some?
    ensures var r := Iterate(cfg, s, draws, outputs, parse);
      var props := Proposals(BestOf(cfg, s), cfg.radii, draws).value;
      var scores := Scores(outputs, parse);
      var k := LeadingScored(scores);
      && |props| == cfg.numProposals
      && r.out == s.out + Announced(Scored(props, scores, k))
                  + (if k < cfg.numProposals then [Unscored(props[k])] else [])
  {
    var sorted := StableSort(s.points, cfg.mode);
    var o := Observe(s.tracker, BestOf(cfg, s).score, cfg.threshold, cfg.staleCount);
    var props := Proposals(BestOf(cfg, s), cfg.radii, draws).value;
    IterateHandles(cfg, s, draws, outputs, parse);
    HandleAllSpec(State(sorted, o.next, s.out, Running), props, Scores(outputs, parse));
  }

  /** The best point never gets worse from one pass to the next while the
      list is non-empty: points are only ever added. */
  lemma BestNeverWorsens(cfg: Config, s: State, draws: seq<Draw>, outputs: seq<string>, parse: string -> Option<Ext>)
    requires ValidConfig(cfg) && AllDim(s.points, cfg.dim) && s.points != []
    requires |draws| == |outputs| == cfg.numProposals && DrawsFit(draws, cfg.dim)
    ensures var r := Iterate(cfg, s, draws, outputs, parse);
      !Better(BestOf(cfg, s).score, BestOf(cfg, r).score, cfg.mode)
  {
    var r := Iterate(cfg, s, draws, outputs, parse);
    var sorted := StableSort(s.points, cfg.mode);
    StableSortPermutes(s.points, cfg.mode);
    var before := BestOf(cfg, s);
    assert before == sorted[|sorted| - 1];
    assert r.points[..|s.points|] == sorted by {
      IterateStaleTest(cfg, s, draws, outputs, parse);
      if !r.status.Converged? {
        if forall i :: 0 <= i < |draws| ==> draws[i].norm != 0.0 {
          IterateAppends(cfg, s, draws, outputs, parse);
        } else {
          IterateZeroNorm(cfg, s, draws, outputs, parse);
        }
      }
    }
    assert r.points[|sorted| - 1] == before;
    BestAfterSort(r.points, cfg.mode, cfg.dim);
  }

  /** The inputs of one pass: its Gaussian draws and its evaluators'
      outputs. */
  datatype Round = Round(draws: seq<Draw>, outputs: seq<string>)

  predicate RoundsFit(cfg: Config, rounds: seq<Round>)
  {
    forall j :: 0 <= j < |rounds| ==>
      |rounds[j].draws| == |rounds[j].outputs| == cfg.numProposals && DrawsFit(rounds[j].draws, cfg.dim)
  }

  /** The `while True` loop over the given passes, stopping at the first
      pass that converges or fails. */
  function RunSpec(cfg: Config, s: State, rounds: seq<Round>, parse: string -> Option<Ext>): (r: State)
    requires ValidConfig(cfg) && AllDim(s.points, cfg.dim) && RoundsFit(cfg, rounds)
    ensures AllDim(r.points, cfg.dim)
    decreases |rounds|
  {
    if rounds == [] then s
    else
      var t := RunSpec(cfg, s, rounds[..|rounds| - 1], parse);
      var last := rounds[|rounds| - 1];
      if t.status.Running? then Iterate(cfg, t, last.draws, last.outputs, parse) else t
  }

  /** What holds at every pass of a run: the loop is running only while
      fewer than `stale_count` stale steps have been seen, it converges when
      exactly `stale_count` have, the counter never decreases, and no point
      is ever dropped from the list. */
  lemma {:induction false} RunInvariant(cfg: Config, s: State, rounds: seq<Round>, parse: string -> Option<Ext>)
    requires ValidConfig(cfg) && AllDim(s.points, cfg.dim) && RoundsFit(cfg, rounds)
    requires s.status.Running? && s.tracker.numStale < cfg.staleCount
    ensures var r := RunSpec(cfg, s, rounds, parse);
      && (r.status.Running? ==> r.tracker.numStale < cfg.staleCount)
      && (r.status.Converged? ==> r.tracker.numStale == cfg.staleCount)
      && r.tracker.numStale >= s.tracker.numStale
      && multiset(s.points) <= multiset(r.points)
    decreases |rounds|
  {
    if rounds != [] {
      var init := rounds[..|rounds| - 1];
      RunInvariant(cfg, s, init, parse);
      var t := RunSpec(cfg, s, init, parse);
      var last := rounds[|rounds| - 1];
      if t.status.Running? {
        IterateStaleTest(cfg, t, last.draws, last.outputs, parse);
        IterateKeepsPoints(cfg, t, last.draws, last.outputs, parse);
      }
    }
  }

  /** No pass drops a point from the list. */
  lemma IterateKeepsPoints(cfg: Config, s: State, draws: seq<Draw>, outputs: seq<string>, parse: string -> Option<Ext>)
    requires ValidConfig(cfg) && AllDim(s.points, cfg.dim)
    requires |draws| == |outputs| == cfg.numProposals && DrawsFit(draws, cfg.dim)
    ensures multiset(s.points) <= multiset(Iterate(cfg, s, draws, outputs, parse).points)
  {
    var r := Iterate(cfg, s, draws, outputs, parse);
    StableSortPermutes(s.points, cfg.mode);
    IterateStaleTest(cfg, s, draws, outputs, parse);
    if !r.status.Converged? {
      if forall i :: 0 <= i < |draws| ==> draws[i].norm != 0.0 {
        IterateAppends(cfg, s, draws, outputs, parse);
      } else {
        IterateZeroNorm(cfg, s, draws, outputs, parse);
      }
    }
  }

  /** Once a result has failed the run, the later results are not handled. */
  lemma {:induction false} HandleAllStops(s: State, props: seq<seq<Ext>>, scores: seq<Option<Ext>>, i: nat)
    requires |props| == |scores| && i <= |props|
    requires !HandleAll(s, props[..i], scores[..i]).status.Running?
    ensures HandleAll(s, props, scores) == HandleAll(s, props[..i], scores[..i])
    decreases |props| - i
  {
    if i < |props| {
      var n := |props| - 1;
      assert props[..n][..i] == props[..i] && scores[..n][..i] == scores[..i];
      HandleAllStops(s, props[..n], scores[..n], i);
    } else {
      assert props[..i] == props && scores[..i] == scores;
    }
  }

  /** Once a pass has converged or failed, the later passes do not run. */
  lemma {:induction false} RunStops(cfg: Config, s: State, rounds: seq<Round>, parse: string -> Option<Ext>, j: nat)
    requires ValidConfig(cfg) && AllDim(s.points, cfg.dim) && RoundsFit(cfg, rounds) && j <= |rounds|
    requires j == |rounds| || !RunSpec(cfg, s, rounds[..j], parse).status.Running?
    ensures RunSpec(cfg, s, rounds, parse) == RunSpec(cfg, s, rounds[..j], parse)
    decreases |rounds| - j
  {
    if j < |rounds| {
      var n := |rounds| - 1;
      assert rounds[..n][..j] == rounds[..j];
      RunStops(cfg, s, rounds[..n], parse, j);
    } else {
      assert rounds[..j] == rounds;
    }
  }

  /** The best values of the passes of a run that were made, in order. */
  function RunBests(cfg: Config, s: State, rounds: seq<Round>, parse: string -> Option<Ext>): (bs: seq<Ext>)
    requires ValidConfig(cfg) && AllDim(s.points, cfg.dim) && RoundsFit(cfg, rounds)
    ensures |bs| <= |rounds|
    decreases |rounds|
  {
    if rounds == [] then []
    else
      var init := rounds[..|rounds| - 1];
      var t := RunSpec(cfg, s, init, parse);
      RunBests(cfg, s, init, parse) + (if t.status.Running? then [BestOf(cfg, t).score] else [])
  }

  /** The staleness variables of a run are those of the tracker fed the best
      value of each pass made, and the run converges exactly when the tracker
      stops; so `Convergence.TrackCountsAllStaleSteps` describes the loop's
      counter over a whole run. */
  lemma {:induction false} RunTracks(cfg: Config, s: State, rounds: seq<Round>, parse: string -> Option<Ext>)
    requires ValidConfig(cfg) && AllDim(s.points, cfg.dim) && RoundsFit(cfg, rounds)
    requires s.status.Running? && s.tracker.numStale < cfg.staleCount
    ensures var r := RunSpec(cfg, s, rounds, parse);
      var o := Track(s.tracker, RunBests(cfg, s, rounds, parse), cfg.threshold, cfg.staleCount);
      r.tracker == o.final && (r.status.Converged? <==> o.haltedAt.Some?)
    decreases |rounds|
  {
    if rounds != [] {
      var init := rounds[..|rounds| - 1];
      RunTracks(cfg, s, init, parse);
      var t := RunSpec(cfg, s, init, parse);
      var bs := RunBests(cfg, s, init, parse);
      if t.status.Running? {
        var last := rounds[|rounds| - 1];
        var best := BestOf(cfg, t);
        var r := Iterate(cfg, t, last.draws, last.outputs, parse);
        assert RunSpec(cfg, s, rounds, parse) == r;
        assert RunBests(cfg, s, rounds, parse) == bs + [best.score];
        IterateStaleTest(cfg, t, last.draws, last.outputs, parse);
        TrackSnoc(s.tracker, bs, best.score, cfg.threshold, cfg.staleCount);
        var o := Observe(t.tracker, best.score, cfg.threshold, cfg.staleCount);
        assert r.tracker == o.next;
      } else {
        assert RunSpec(cfg, s, rounds, parse) == t;
        assert RunBests(cfg, s, rounds, parse) == bs;
      }
    }
  }
}
