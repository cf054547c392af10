# pyrandomsearch in Dafny

A model of the decision logic of `pyrandomsearch`, a random-search optimiser.
The program reads already-evaluated seed points, then loops. Each pass does
the following:

- It sorts its points by score and takes the best one.
- It tests whether the best score has gone stale.
- If it has not, it proposes `--num-proposals` new points. Each one lies on
  an ellipsoid of radii `--radii` around the best point.
- It runs the evaluator once per proposal. The score is read from the
  evaluator's standard output, and the point is added to the list.

The model is written in the program's own form. The following parts are
functions and lemmas:

- the option checks;
- the seed-list comprehension;
- the radii padding;
- `generate_new_point`;
- the sort and the best-point choice;
- the staleness test.

`handle_eval_results` and the `while True` loop update state in place. They
are the class `Search.Search`: its fields are the point list,
`last_best_value`, `num_stale_steps`, what has been written and the run's
status. Its methods are proved equal to the specification functions of
module `Loop`, and the properties are proved as lemmas about those
functions.

Modules, one file each:

- `Wrappers` — `Option` and `Result`.
- `Floats` — scores and coordinates as `-inf`, a finite real or `inf`. It
  also holds IEEE `abs(a - b)`, where `inf - inf` (NaN) is `None`.
- `Text` — `str.strip`, `str.split()`, `str.split(sep)` and `startswith('#')`.
  Whitespace is the set of characters of Python's `str.isspace`.
- `PointSet` — Python's stable sort by score with `reverse=(mode == 'min')`,
  the best point and the origin.
- `Config` — the option checks and the padding of the radii.
- `Seeds` — reading, checking and counting the seed points, and the start-up
  sequence `Prepare`.
- `Sampler` — `generate_new_point`.
- `Evaluator` — reading the score from an evaluator's output.
- `Convergence` — `last_best_value` and `num_stale_steps`.
- `Loop` — one pass and a run of passes, as functions of the state.
- `Search` — the class that runs the loop in place.

Where the program's help text and its code disagree, the model follows the
code:

- **The score is the LAST line that parses.** The help text (lines 77-78 and
  153-155) says "the first line". But the loop at lines 34-40 has no `break`,
  so each parseable line overwrites the score. `Evaluator.LaterNumberWins`
  gives an output where the two readings differ.
- **`num_stale_steps` is never reset.** The help text (lines 133-135) speaks
  of "consecutive stale steps", but a step that is not stale leaves the
  counter as it is (lines 267-268). The counter therefore counts every stale
  step of the run. See `Convergence.TrackCountsAllStaleSteps` and
  `Convergence.StaleStepsNeedNotBeConsecutive`.
- **The infinities are -inf in min mode and inf in max mode.** Line 243
  starts `last_best_value` this way, and lines 257-259 give the origin the
  same score. In either mode the origin therefore has the best possible
  score, not the worst. The first step is still never stale. Against an
  infinite `last_best_value`, `abs(x - last_best_value)` is `inf` for a
  finite or opposite-infinite `x` and NaN for the same infinity, and
  neither is within a finite threshold (`Convergence.FirstStepNeverStale`).
- **A converging step keeps the old `last_best_value`.** The `break` at line
  273 comes before the update at line 274.

Two consequences of the code are also proved:

- The empty-point check at lines 208-212 can never fire. A kept line is
  non-empty after `strip()`, so it has at least one token
  (`Seeds.SeedTuplesNonEmpty`).
- An infinite best score can never count as stale. Against the same
  infinity the difference is NaN, whose comparison is false; against a
  finite value or the other infinity it is `inf`, which exceeds the finite
  threshold (`Convergence.IsStaleIff`).

## Model

| member | source | states |
|---|---|---|
| Config.ValidateOptions | pyrandomsearch/pyrandomsearch.py:166-177 | the options are rejected exactly when a given dimensionality is < 1, the stale threshold < 0, the stale count < 1 or the number of proposals < 1; each error is reported exactly when its check is the first to fail, in the program's order |
| Config.PadRadii | pyrandomsearch/pyrandomsearch.py:224-225 | an empty radius list fails (`radii[-1]`); otherwise the result has length max(len, d), keeps every given radius, is never truncated, and each added entry equals the last given radius |
| Text.Strip | pyrandomsearch/pyrandomsearch.py:190 | `str.strip()`; its contract is `Text.StripSpec` |
| Text.Words | pyrandomsearch/pyrandomsearch.py:189 | `str.split()`; its contracts are the `Words` lemmas below |
| Text.SplitOn | pyrandomsearch/pyrandomsearch.py:34 | `str.split('\n')` gives at least one piece; `Text.SplitOnJoin` and `Text.SplitOnPieces` determine it |
| Text.StripSpec | pyrandomsearch/pyrandomsearch.py:190 | `strip()` removes only whitespace at either end, leaves a slice that neither starts nor ends with whitespace, and leaves nothing exactly when the line is all whitespace |
| Text.WordsAreWords | pyrandomsearch/pyrandomsearch.py:189 | every token of `split()` is non-empty and free of whitespace |
| Text.WordsKeepEveryOtherCharacter | pyrandomsearch/pyrandomsearch.py:189 | the tokens of `split()`, concatenated in order, are exactly the non-whitespace characters of the line |
| Text.WordsEmptyIff | pyrandomsearch/pyrandomsearch.py:189 | `split()` gives no token exactly when the line is all whitespace |
| Text.WordsOfWord | pyrandomsearch/pyrandomsearch.py:189 | a line that is a single whitespace-free word splits into exactly that word |
| Text.WordsCutAtSpace | pyrandomsearch/pyrandomsearch.py:189 | `split()` cuts at every whitespace character: the tokens of `a + c + b` for a whitespace `c` are those of `a` followed by those of `b`; with `WordsOfWord` this fixes the number of tokens of every line |
| Text.SplitOnJoin | pyrandomsearch/pyrandomsearch.py:34 | `split('\n')` loses nothing: joining its pieces with newlines gives the output back |
| Text.SplitOnPieces | pyrandomsearch/pyrandomsearch.py:34 | no piece of `split('\n')` contains a newline |
| Seeds.Kept | pyrandomsearch/pyrandomsearch.py:191 | the filter's test on a stripped line: not empty and not starting with `#` |
| Seeds.KeptLines | pyrandomsearch/pyrandomsearch.py:190-191 | every kept line is non-empty and does not start with `#`, and there are no more kept lines than input lines |
| Seeds.KeptLinesAppend | pyrandomsearch/pyrandomsearch.py:190-191 | the filter works line by line: the kept lines of a concatenation are the kept lines of each part, in order |
| Seeds.KeptLinesMembers | pyrandomsearch/pyrandomsearch.py:190-191 | a string is among the kept lines exactly when it is non-empty, does not start with `#`, and is the stripped form of some input line |
| Seeds.ParseTuple | pyrandomsearch/pyrandomsearch.py:189 | a line's tuple fails exactly when some token does not parse; otherwise it has one entry per token, each the parse of that token, in order |
| Seeds.ParseSeeds | pyrandomsearch/pyrandomsearch.py:188-192 | the seed comprehension: the kept lines' tuples, characterised by `Seeds.KeptLines` and `Seeds.ParseAll` |
| Seeds.ParseAll | pyrandomsearch/pyrandomsearch.py:188-192 | the comprehension fails exactly when some kept line has a token that does not parse; otherwise it gives one tuple per kept line, in order |
| Seeds.SeedTuplesNonEmpty | pyrandomsearch/pyrandomsearch.py:207-212 | every parsed seed tuple has at least one entry, so the empty-point error cannot occur |
| Seeds.PointError | pyrandomsearch/pyrandomsearch.py:207-222 | a point passes its checks exactly when it has a score and exactly `dim` coordinates; otherwise it reports, with the point's index, an empty point for no entry, no parameters for a score alone, and mismatched dimensionality for a wrong number of coordinates |
| Seeds.FirstPointError | pyrandomsearch/pyrandomsearch.py:207-222 | no error exactly when every point passes its checks; otherwise the error of a point that fails, all points before which pass |
| Seeds.CheckPoints | pyrandomsearch/pyrandomsearch.py:207-222 | the checking loop reports exactly `FirstPointError`: nothing exactly when every point has a score and `dim` coordinates, otherwise the error of the first point that fails |
| Seeds.ChosenDim | pyrandomsearch/pyrandomsearch.py:203-205 | the given dimensionality, or one less than the length of the first seed point when none is given |
| Seeds.Prepare | pyrandomsearch/pyrandomsearch.py:166-225 | start-up succeeds exactly when the options pass, the seeds parse, some dimensionality is known, every point fits it and a radius is given; each error is returned exactly when every earlier stage passed: an option error, then an unparsable seed, then no points and no dimensionality, then `FirstPointError` of the parsed points, then an empty radius list; on success the configuration has the inferred or given dimensionality and the padded radii, and the seeds are the parsed tuples in input order |
| PointSet.Insert | pyrandomsearch/pyrandomsearch.py:252 | one insertion step of the sort; its contracts are `PointSet.InsertPermutes`, `PointSet.InsertSorted` and `PointSet.InsertStable` |
| PointSet.StableSort | pyrandomsearch/pyrandomsearch.py:228 | the sort by score with `reverse=(mode == 'min')`; its contracts are the three lemmas below |
| PointSet.StableSortSorted | pyrandomsearch/pyrandomsearch.py:252 | after the sort no point is strictly better than a point after it: the best scores are last |
| PointSet.StableSortPermutes | pyrandomsearch/pyrandomsearch.py:252 | the sort is a permutation: no point is lost or added |
| PointSet.StableSortStable | pyrandomsearch/pyrandomsearch.py:252 | points with equal scores keep their relative order, also with `reverse=True` |
| PointSet.BestIndex | pyrandomsearch/pyrandomsearch.py:262 | the chosen point has an extremal score (minimum in min mode, maximum in max mode), and every later point is strictly worse |
| PointSet.StableSortLastIsBest | pyrandomsearch/pyrandomsearch.py:252-262 | the last point of the sorted list is the last-occurring point of extremal score |
| PointSet.Origin | pyrandomsearch/pyrandomsearch.py:255-260 | the origin: `dim` zero coordinates, score `-inf` when minimising and `inf` when maximising |
| PointSet.BestPoint | pyrandomsearch/pyrandomsearch.py:255-262 | the last point of the sorted list, or the origin when it is empty; its contract is `PointSet.BestAfterSort` |
| PointSet.BestAfterSort | pyrandomsearch/pyrandomsearch.py:252-262 | the loop's best point is that extremal point, or for an empty list the origin: `d` zeros with score -inf in min mode and inf in max mode |
| Floats.AbsDiff | pyrandomsearch/pyrandomsearch.py:266 | `abs(a - b)` is NaN exactly when both are the same infinity, finite exactly when both are finite, and never negative; for two finite values it is the one of `a - b` and `b - a` that is not negative, and otherwise `inf` |
| Sampler.GenerateNewPoint | pyrandomsearch/pyrandomsearch.py:2-14 | a zero norm raises `ZeroDivisionError` (when there is a coordinate); otherwise the proposal has one coordinate per coordinate of the point, and coordinate i is `point[i + 1] + delta[i] / norm * radii[i]` |
| Sampler.SumSqDivided | pyrandomsearch/pyrandomsearch.py:8-11 | dividing the draws by the norm divides their sum of squares by the norm squared |
| Sampler.ScaledOffsetIsDirection | pyrandomsearch/pyrandomsearch.py:10-13 | from a finite point, the proposal is finite, and its offset, divided axis by axis by the radii, is the draw divided by the norm |
| Sampler.ProposalOnScaledSphere | pyrandomsearch/pyrandomsearch.py:6-13 | when the norm is the Euclidean norm of the draws, the radius-scaled offset of the proposal has unit length: the proposal lies on the exploration ellipsoid |
| Evaluator.GivesScore | pyrandomsearch/pyrandomsearch.py:35-40 | a line sets the score exactly when it does not start with `#` and `float()` accepts it |
| Evaluator.LastScore | pyrandomsearch/pyrandomsearch.py:35-40 | the score slot after scanning the lines: its contract is `Evaluator.LastScoreSpec` |
| Evaluator.ScoreOf | pyrandomsearch/pyrandomsearch.py:34-41 | the score of a whole output: the lines are `split('\n')` of it, then `LastScore` |
| Evaluator.LastScoreSpec | pyrandomsearch/pyrandomsearch.py:34-40 | there is no score exactly when no line is both a non-comment and parseable; otherwise the score is that of such a line after which no line is |
| Evaluator.ExtractScore | pyrandomsearch/pyrandomsearch.py:34-40 | the scanning loop, skipping `#` lines and overwriting on each parse, ends with the score of the last line that gives one |
| Evaluator.LaterNumberWins | pyrandomsearch/pyrandomsearch.py:34-40 | for the output `1\n2\n` the score is 2, not 1 |
| Convergence.InitialTracker | pyrandomsearch/pyrandomsearch.py:243-244 | the staleness variables before the first pass: no stale step, and an infinite `last_best_value`, `-inf` exactly in min mode and `inf` in max mode |
| Convergence.IsStale | pyrandomsearch/pyrandomsearch.py:266-267 | the comparison `abs(best - last_best_value) <= stale_threshold`, false when the difference is NaN; its meaning is `Convergence.IsStaleIff` |
| Convergence.Observe | pyrandomsearch/pyrandomsearch.py:266-274 | the counter grows by at most one, and by one exactly when the step is stale; the loop stops exactly when it reaches `stale_count`, keeping `last_best_value`; otherwise `last_best_value` becomes the best value |
| Convergence.IsStaleIff | pyrandomsearch/pyrandomsearch.py:266-267 | a step is stale exactly when both values are finite and differ by at most the threshold |
| Convergence.FirstStepNeverStale | pyrandomsearch/pyrandomsearch.py:243 | compared with the initial `last_best_value`, no best value is stale |
| Convergence.Track | pyrandomsearch/pyrandomsearch.py:243-274 | the tracker fed successive best values until it stops; its contract is `Convergence.TrackCountsAllStaleSteps` |
| Convergence.TrackCountsAllStaleSteps | pyrandomsearch/pyrandomsearch.py:243-274 | the loop stops at the first step where the total number of stale steps reaches `stale_count`, keeping the `last_best_value` that step was compared with; until then the counter is that total and `last_best_value` is the previous best |
| Convergence.StaleStepsNeedNotBeConsecutive | pyrandomsearch/pyrandomsearch.py:267-269 | maximising with threshold 0 and count 2, the best values 1, 1, 2, 2 (a run the loop can produce) stop the loop at the fourth step, although no two stale steps are adjacent |
| Loop.Listing | pyrandomsearch/pyrandomsearch.py:229-230 | one line per sorted seed point, in the sorted order |
| Loop.StartState | pyrandomsearch/pyrandomsearch.py:227-244 | the state entering the loop: the seed points as the stable sort leaves them (sorted, a permutation, equal scores in input order), listed in that order, `last_best_value` infinite, no stale step, running |
| Loop.Proposals | pyrandomsearch/pyrandomsearch.py:277-283 | a step's proposals fail exactly when one draw has a zero norm; otherwise there is one per draw, each generated from the same best point |
| Loop.HandleOne | pyrandomsearch/pyrandomsearch.py:29-52 | one result: with a score the point is appended and written and the status kept; without one the error is written, nothing is appended and the run fails; `last_best_value` and the counter are untouched |
| Loop.HandleAll | pyrandomsearch/pyrandomsearch.py:286-287 | the results handled in proposal order up to the first failure; its contract is `Loop.HandleAllSpec` |
| Loop.LeadingScored | pyrandomsearch/pyrandomsearch.py:286-287 | the count of leading outputs that hold a score: all before it do, the one at it does not |
| Loop.HandleAllSpec | pyrandomsearch/pyrandomsearch.py:29-52 | the results of a step add, in proposal order, each proposal with its score, up to the first output without one; that output writes the error and fails the run; if all have scores, every proposal is added and written |
| Loop.Iterate | pyrandomsearch/pyrandomsearch.py:252-287 | a pass keeps every point at the run's dimensionality |
| Loop.IterateStaleTest | pyrandomsearch/pyrandomsearch.py:264-274 | the counter grows by one exactly when the pass is stale; the run converges exactly when the counter reaches `stale_count`, and then writes the best point and keeps the list and `last_best_value`; otherwise `last_best_value` becomes the best score |
| Loop.IterateZeroNorm | pyrandomsearch/pyrandomsearch.py:278-281 | a pass that does not converge fails on a zero norm exactly when some draw of it has norm zero, and then adds and writes nothing |
| Loop.IterateAppends | pyrandomsearch/pyrandomsearch.py:276-287 | a pass that generates its proposals leaves the sorted list followed by the scored proposals in order, each from the best point; it keeps running exactly when all `num_proposals` outputs have a score, otherwise it fails for lack of a score; no point is lost |
| Loop.IterateWrites | pyrandomsearch/pyrandomsearch.py:276-287 | a pass that generates its proposals writes each scored proposal in order, then, if some output has no score, the error for that proposal and nothing after it |
| Loop.IterateKeepsPoints | pyrandomsearch/pyrandomsearch.py:252-287 | no pass drops a point from the list |
| Loop.BestNeverWorsens | pyrandomsearch/pyrandomsearch.py:252-262 | once the list is non-empty, the best score of the next pass is never worse than that of this one |
| Loop.RunSpec | pyrandomsearch/pyrandomsearch.py:245-287 | a run keeps every point at the run's dimensionality |
| Loop.RunBests | pyrandomsearch/pyrandomsearch.py:252-262 | the best values of the passes a run makes, in order, no more than there are passes |
| Loop.RunTracks | pyrandomsearch/pyrandomsearch.py:243-274 | over a whole run, `last_best_value` and `num_stale_steps` are those of the tracker fed the best value of each pass made, and the run converges exactly when the tracker stops, so `Convergence.TrackCountsAllStaleSteps` gives the counter as the total of stale passes |
| Loop.RunInvariant | pyrandomsearch/pyrandomsearch.py:243-287 | across a run: the loop runs only while fewer than `stale_count` stale steps have been seen, converges with exactly `stale_count`, the counter never decreases, and no point is ever dropped |
| Search.Search.constructor | pyrandomsearch/pyrandomsearch.py:227-244 | the seed points are sorted and listed, `last_best_value` starts infinite and the counter at zero |
| Search.Search.HandleEvalResults | pyrandomsearch/pyrandomsearch.py:29-52 | reads the last score from the output; appends and writes the point, or writes the error and fails the run |
| Search.Search.GenerateProposals | pyrandomsearch/pyrandomsearch.py:277-283 | the generation loop gives exactly the step's proposals, or fails at a zero norm |
| Search.Search.HandleResults | pyrandomsearch/pyrandomsearch.py:286-287 | the handling loop leaves the state that handling every result in order gives, stopping at the first failure |
| Search.Search.Step | pyrandomsearch/pyrandomsearch.py:252-287 | one pass of the loop, in place, leaves exactly the state of one pass of the specification, and keeps the dimensionality invariant |
| Search.Search.Run | pyrandomsearch/pyrandomsearch.py:245-287 | the loop over the given passes, in place, leaves exactly the state of the specified run |

## Left out

- Running the evaluator is not modelled: `run_eval_process`, `proc.communicate`, `str.format` of the command and `shlex.split` (lines 17-26, 32). Each evaluator's standard output is an input string, and the processes of one pass are handled in proposal order, as the program does.
- `float()` is the parameter `parse`, a partial function from a string to `-inf`, a finite real or `inf`. NaN scores (`float('nan')`) are out of the model. The only NaN the model has is that of `inf - inf` in the staleness test, where it makes the comparison false.
- `random.gauss`, `random.seed` and `math.sqrt` are not modelled. The Gaussian draws and their norm are inputs (`Sampler.Draw`). The lemmas that use the norm assume it is the exact Euclidean norm of the draws, and floating-point rounding is not modelled: coordinates are real numbers.
- The radii are taken as a parsed list of reals. `eval` of the `--radii` string (line 224) is not modelled beyond the `IndexError` of an empty list.
- The stale threshold is a finite real; an infinite `--stale-threshold` is not modelled.
- argparse, reading stdin or the `--input` file, the append-mode copy of the output (lines 233-241), the date and time lines (lines 247-250) and `sys.stdout.flush` are not modelled. Each `sys.exit(1)` is an error result or a `Failed` status. The written lines are records (`Loop.Record`), not formatted text.
- A zero Gaussian norm, which raises `ZeroDivisionError` in the program, ends the run as the status `Failed(ZeroNorm)`. Processes already started for earlier proposals of that pass are not modelled.
- Python's sort (Timsort) is modelled by a stable insertion sort. The two give the same result.
- The header lines `## Existing points:` and `## New points:` (lines 227 and 231) and the warning `## WARN: No existing points, seeding with origin` (line 195) are not records: they carry no data, and the warning changes nothing the loop does.
- Search.Search.Run: runs for at most the given number of passes, where the program's `while True` loop runs until it converges or fails.
