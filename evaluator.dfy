/** `handle_eval_results`, the part that reads a score from the evaluator's
    output. Running the process is not modelled: its standard output is an
    input, and `float()` is the partial function `parse` from a line to a
    float (`None` where it raises). */
module Evaluator {
  import opened Wrappers
  import opened Floats
  import opened Text

  /** An output line that yields a score: not a `#` comment, and a float. */
  predicate GivesScore(line: string, parse: string -> Option<Ext>)
  {
    !StartsWithHash(line) && parse(line).Some?
  }

  /** The score of the output: the value of the LAST line that yields one,
      since the loop overwrites the score slot and never breaks. */
  function LastScore(lines: seq<string>, parse: string -> Option<Ext>): Option<Ext>
    decreases |lines|
  {
    if lines == [] then None
    else if GivesScore(lines[|lines| - 1], parse) then parse(lines[|lines| - 1])
    else LastScore(lines[..|lines| - 1], parse)
  }

  /** There is no score exactly when no line yields one; otherwise the score
      is that of a line that yields one, after which no line does. */
  lemma {:induction false} LastScoreSpec(lines: seq<string>, parse: string -> Option<Ext>)
    ensures LastScore(lines, parse).None? <==> forall i :: 0 <= i < |lines| ==> !GivesScore(lines[i], parse)
    ensures LastScore(lines, parse).Some? ==>
      exists i :: 0 <= i < |lines| && GivesScore(lines[i], parse) && parse(lines[i]) == LastScore(lines, parse)
               && forall j :: i < j < |lines| ==> !GivesScore(lines[j], parse)
    decreases |lines|
  {
    if lines != [] && !GivesScore(lines[|lines| - 1], parse) {
      var l := lines[..|lines| - 1];
      LastScoreSpec(l, parse);
      assert forall i :: 0 <= i < |l| ==> l[i] == lines[i];
    }
  }

  /** The scan of the output lines: skips comments, and each line that
      parses overwrites the score found so far. */
  method ExtractScore(lines: seq<string>, parse: string -> Option<Ext>) returns (score: Option<Ext>)
    ensures score == LastScore(lines, parse)
  {
    score := None;
    for i := 0 to |lines|
      invariant score == LastScore(lines[..i], parse)
    {
      assert lines[..i + 1][..i] == lines[..i];
      if StartsWithHash(lines[i]) {
        continue;
      }
      var v := parse(lines[i]);
      if v.Some? {
        score := v;
      }
    }
    assert lines[..|lines|] == lines;
  }

  /** The score of a process's whole standard output, split at newlines. */
  function ScoreOf(stdout: string, parse: string -> Option<Ext>): Option<Ext>
  {
    LastScore(SplitOn(stdout, '\n'), parse)
  }

  /** When two lines parse, the later one is the score, not the first one. */
  lemma LaterNumberWins(parse: string -> Option<Ext>)
    requires parse("1") == Some(Fin(1.0)) && parse("2") == Some(Fin(2.0)) && parse("") == None
    ensures ScoreOf("1\n2\n", parse) == Some(Fin(2.0))
  {
    assert "\n"[1..] == "";
    assert SplitOn("\n", '\n') == ["", ""];
    assert "2\n"[1..] == "\n" && ['2'] + "" == "2";
    assert SplitOn("2\n", '\n') == ["2", ""];
    assert "\n2\n"[1..] == "2\n";
    assert SplitOn("\n2\n", '\n') == ["", "2", ""];
    assert "1\n2\n"[1..] == "\n2\n" && ['1'] + "" == "1";
    assert SplitOn("1\n2\n", '\n') == ["1", "2", ""];
  }
}
