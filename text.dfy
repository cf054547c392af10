/** The string operations of Python's `str` that the optimiser relies on:
    `strip()`, `split()` with no separator, `split(sep)` and
    `startswith('#')`. Strings are sequences of Unicode characters. */
module Text {

  /** The characters for which Python's `str.isspace()` holds; `strip()` and
      `split()` without arguments remove exactly these. */
  const Whitespace: set<char> := {
    ' ', '\t', '\n', '\U{B}', '\U{C}', '\r', '\U{1C}', '\U{1D}', '\U{1E}', '\U{1F}',
    '\U{85}', '\U{A0}', '\U{1680}', '\U{2000}', '\U{2001}', '\U{2002}', '\U{2003}',
    '\U{2004}', '\U{2005}', '\U{2006}', '\U{2007}', '\U{2008}', '\U{2009}', '\U{200A}',
    '\U{2028}', '\U{2029}', '\U{202F}', '\U{205F}', '\U{3000}'
  }

  predicate IsSpace(c: char)
  {
    c in Whitespace
  }

  /** `s.startswith('#')` */
  predicate StartsWithHash(s: string)
  {
    |s| > 0 && s[0] == '#'
  }

  /** `s.lstrip()` */
  function TrimLeft(s: string): string
  {
    if s != [] && IsSpace(s[0]) then TrimLeft(s[1..]) else s
  }

  /** `lstrip()` drops a prefix of whitespace and stops at the first
      character that is not whitespace. */
  lemma {:induction false} TrimLeftSpec(s: string)
    ensures |TrimLeft(s)| <= |s| && TrimLeft(s) == s[|s| - |TrimLeft(s)|..]
    ensures forall i :: 0 <= i < |s| - |TrimLeft(s)| ==> IsSpace(s[i])
    ensures TrimLeft(s) == [] || !IsSpace(TrimLeft(s)[0])
    decreases |s|
  {
    if s != [] && IsSpace(s[0]) {
      TrimLeftSpec(s[1..]);
    }
  }

  /** `s.rstrip()` */
  function TrimRight(s: string): string
  {
    if s != [] && IsSpace(s[|s| - 1]) then TrimRight(s[..|s| - 1]) else s
  }

  /** `rstrip()` drops a suffix of whitespace and stops at the last
      character that is not whitespace. */
  lemma {:induction false} TrimRightSpec(s: string)
    ensures |TrimRight(s)| <= |s| && TrimRight(s) == s[..|TrimRight(s)|]
    ensures forall i :: |TrimRight(s)| <= i < |s| ==> IsSpace(s[i])
    ensures TrimRight(s) == [] || !IsSpace(TrimRight(s)[|TrimRight(s)| - 1])
    decreases |s|
  {
    if s != [] && IsSpace(s[|s| - 1]) {
      TrimRightSpec(s[..|s| - 1]);
    }
  }

  /** `s.strip()` */
  function Strip(s: string): string
  {
    TrimRight(TrimLeft(s))
  }

  /** `strip()` leaves a slice of the line: what it removes from either end
      is whitespace, and what it leaves neither starts nor ends with
      whitespace; it leaves nothing exactly when the line is all whitespace. */
  lemma StripSpec(s: string)
    ensures exists i, j :: 0 <= i <= j <= |s| && Strip(s) == s[i..j]
                        && (forall k :: 0 <= k < i ==> IsSpace(s[k]))
                        && (forall k :: j <= k < |s| ==> IsSpace(s[k]))
    ensures Strip(s) == [] || (!IsSpace(Strip(s)[0]) && !IsSpace(Strip(s)[|Strip(s)| - 1]))
    ensures Strip(s) == [] <==> forall k :: 0 <= k < |s| ==> IsSpace(s[k])
  {
    var t := TrimLeft(s);
    var r := TrimRight(t);
    TrimLeftSpec(s);
    TrimRightSpec(t);
    assert r == s[|s| - |t|..|s| - |t| + |r|];
  }

  /** The longest prefix of `s` that holds no whitespace. */
  function TakeWord(s: string): string
  {
    if s == [] || IsSpace(s[0]) then [] else [s[0]] + TakeWord(s[1..])
  }

  /** The word taken is a whitespace-free prefix that ends at whitespace or
      at the end of the text. */
  lemma {:induction false} TakeWordSpec(s: string)
    ensures |TakeWord(s)| <= |s| && TakeWord(s) == s[..|TakeWord(s)|]
    ensures forall k :: 0 <= k < |TakeWord(s)| ==> !IsSpace(TakeWord(s)[k])
    ensures |TakeWord(s)| == |s| || IsSpace(s[|TakeWord(s)|])
    decreases |s|
  {
    if s != [] && !IsSpace(s[0]) {
      TakeWordSpec(s[1..]);
    }
  }

  /** A token of `split()`: non-empty and free of whitespace. */
  predicate IsWord(w: string)
  {
    w != [] && forall k :: 0 <= k < |w| ==> !IsSpace(w[k])
  }

  /** `s.split()`: the maximal runs of non-whitespace characters of `s`, in
      order. */
  function Words(s: string): seq<string>
    decreases |s|
  {
    var t := TrimLeft(s);
    if t == [] then []
    else
      var w := TakeWord(t);
      TrimLeftSpec(s);
      TakeWordSpec(t);
      [w] + Words(t[|w|..])
  }

  /** Every token of `split()` is non-empty and holds no whitespace. */
  lemma {:induction false} WordsAreWords(s: string)
    ensures forall n :: 0 <= n < |Words(s)| ==> IsWord(Words(s)[n])
    decreases |s|
  {
    var t := TrimLeft(s);
    if t != [] {
      var w := TakeWord(t);
      TrimLeftSpec(s);
      TakeWordSpec(t);
      WordsStep(s);
      WordsAreWords(t[|w|..]);
      assert IsWord(w) by {
        assert w == [t[0]] + TakeWord(t[1..]);
      }
    }
  }

  /** The non-whitespace characters of `s`, in order. */
  function NonSpace(s: string): string
  {
    if s == [] then [] else (if IsSpace(s[0]) then [] else [s[0]]) + NonSpace(s[1..])
  }

  /** The concatenation of a sequence of strings. */
  function Concat(ws: seq<string>): string
  {
    if ws == [] then [] else ws[0] + Concat(ws[1..])
  }

  lemma {:induction false} NonSpaceAppend(a: string, b: string)
    ensures NonSpace(a + b) == NonSpace(a) + NonSpace(b)
    decreases |a|
  {
    if a != [] {
      assert (a + b)[1..] == a[1..] + b;
      NonSpaceAppend(a[1..], b);
    } else {
      assert a + b == b;
    }
  }

  lemma {:induction false} NonSpaceOfSpaces(s: string)
    requires forall k :: 0 <= k < |s| ==> IsSpace(s[k])
    ensures NonSpace(s) == []
    decreases |s|
  {
    if s != [] {
      NonSpaceOfSpaces(s[1..]);
    }
  }

  lemma {:induction false} NonSpaceOfWord(s: string)
    requires forall k :: 0 <= k < |s| ==> !IsSpace(s[k])
    ensures NonSpace(s) == s
    decreases |s|
  {
    if s != [] {
      NonSpaceOfWord(s[1..]);
    }
  }

  lemma NonSpaceTrimLeft(s: string)
    ensures NonSpace(TrimLeft(s)) == NonSpace(s)
  {
  }

  /** A whitespace-free prefix is kept whole by `NonSpace`. */
  lemma NonSpaceWordThenRest(t: string, n: nat)
    requires n <= |t| && forall k :: 0 <= k < n ==> !IsSpace(t[k])
    ensures NonSpace(t) == t[..n] + NonSpace(t[n..])
  {
    var w, rest := t[..n], t[n..];
    assert t == w + rest;
    NonSpaceOfWord(w);
    NonSpaceAppend(w, rest);
  }

  /** `split()` loses only whitespace: its words, put back together, are the
      non-whitespace characters of the line in their original order. */
  lemma {:induction false} WordsKeepEveryOtherCharacter(s: string)
    ensures Concat(Words(s)) == NonSpace(s)
    decreases |s|
  {
    var t := TrimLeft(s);
    NonSpaceTrimLeft(s);
    if t != [] {
      var w := TakeWord(t);
      TrimLeftSpec(s);
      TakeWordSpec(t);
      var ws := Words(t[|w|..]);
      NonSpaceWordThenRest(t, |w|);
      WordsKeepEveryOtherCharacter(t[|w|..]);
      assert Words(s) == [w] + ws;
      assert ([w] + ws)[1..] == ws;
    }
  }

  /** `split()` yields no token exactly when the line is all whitespace; in
      particular a line that is non-empty after `strip()` has a first token. */
  lemma WordsEmptyIff(s: string)
    ensures Words(s) == [] <==> forall k :: 0 <= k < |s| ==> IsSpace(s[k])
  {
    var t := TrimLeft(s);
    TrimLeftSpec(s);
    if t != [] {
      assert !IsSpace(s[|s| - |t|]);
    }
  }

  /** `lstrip()` skips a run of whitespace entirely. */
  lemma {:induction false} TrimLeftAfterSpaces(p: string, x: string)
    requires forall k :: 0 <= k < |p| ==> IsSpace(p[k])
    ensures TrimLeft(p + x) == TrimLeft(x)
    decreases |p|
  {
    if p == [] {
      assert p + x == x;
    } else {
      assert (p + x)[1..] == p[1..] + x;
      TrimLeftAfterSpaces(p[1..], x);
    }
  }

  /** Once `lstrip()` stops inside `a`, whatever follows `a` is kept. */
  lemma {:induction false} TrimLeftAppend(a: string, x: string)
    requires TrimLeft(a) != []
    ensures TrimLeft(a + x) == TrimLeft(a) + x
    decreases |a|
  {
    assert (a + x)[0] == a[0];
    if IsSpace(a[0]) {
      assert (a + x)[1..] == a[1..] + x;
      TrimLeftAppend(a[1..], x);
    }
  }

  /** A word that ends inside `t`, or at whitespace just after it, is not
      lengthened by what follows. */
  lemma {:induction false} TakeWordAppend(t: string, x: string)
    requires |TakeWord(t)| < |t| || x == [] || IsSpace(x[0])
    ensures TakeWord(t + x) == TakeWord(t)
    decreases |t|
  {
    if t == [] {
      assert t + x == x;
    } else {
      assert (t + x)[0] == t[0];
      if !IsSpace(t[0]) {
        assert (t + x)[1..] == t[1..] + x;
        TakeWordAppend(t[1..], x);
      }
    }
  }

  /** A line that is a single word is split into exactly that word. */
  lemma WordsOfWord(w: string)
    requires IsWord(w)
    ensures Words(w) == [w]
  {
    TakeWordSpec(w);
    assert TrimLeft(w) == w;
    assert TakeWord(w) == w;
    assert w[|w|..] == [];
  }

  /** One token of `split()`: the word at the start of the left-stripped
      text, then the tokens of what follows it. */
  lemma WordsStep(s: string)
    requires TrimLeft(s) != []
    ensures |TakeWord(TrimLeft(s))| <= |TrimLeft(s)|
    ensures Words(s) == [TakeWord(TrimLeft(s))] + Words(TrimLeft(s)[|TakeWord(TrimLeft(s))|..])
  {
    TakeWordSpec(TrimLeft(s));
  }

  /** Leading whitespace does not change the tokens. */
  lemma WordsAfterSpaces(p: string, x: string)
    requires forall k :: 0 <= k < |p| ==> IsSpace(p[k])
    ensures Words(p + x) == Words(x)
  {
    TrimLeftAfterSpaces(p, x);
  }

  /** `split()` cuts at every whitespace character: the text on either side
      of one is split on its own. With `WordsOfWord` and `Words("") == []`
      this determines the tokens of every line. */
  lemma {:induction false} WordsCutAtSpace(a: string, c: char, b: string)
    requires IsSpace(c)
    ensures Words(a + [c] + b) == Words(a) + Words(b)
    decreases |a|
  {
    var t := TrimLeft(a);
    TrimLeftSpec(a);
    if t == [] {
      assert a + [c] + b == (a + [c]) + b;
      WordsAfterSpaces(a + [c], b);
    } else {
      var w := TakeWord(t);
      assert |w| >= 1 by {
        assert w == [t[0]] + TakeWord(t[1..]);
      }
      var x := [c] + b;
      assert a + [c] + b == a + x;
      WordsCutAfterWord(a, x);
      var rest := t[|w|..];
      assert rest + x == rest + [c] + b;
      WordsCutAtSpace(rest, c, b);
    }
  }

  /** When `x` starts with whitespace, the first token of `a` is the first
      token of `a + x`, and the rest of `a` is split together with `x`. */
  lemma WordsCutAfterWord(a: string, x: string)
    requires TrimLeft(a) != [] && x != [] && IsSpace(x[0])
    ensures |TakeWord(TrimLeft(a))| <= |TrimLeft(a)|
    ensures var t := TrimLeft(a); var w := TakeWord(t);
      && Words(a) == [w] + Words(t[|w|..])
      && Words(a + x) == [w] + Words(t[|w|..] + x)
  {
    var t := TrimLeft(a);
    var w := TakeWord(t);
    TrimLeftAppend(a, x);
    TakeWordAppend(t, x);
    WordsStep(a + x);
    WordsStep(a);
    assert (t + x)[|w|..] == t[|w|..] + x;
  }


  /** `s.split(sep)`: the pieces of `s` between occurrences of `sep`; there
      is always at least one. */
  function SplitOn(s: string, sep: char): (parts: seq<string>)
    ensures |parts| >= 1
  {
    if s == [] then [[]]
    else
      var rest := SplitOn(s[1..], sep);
      if s[0] == sep then [[]] + rest else [[s[0]] + rest[0]] + rest[1..]
  }

  /** No piece of `s.split(sep)` contains `sep`. */
  lemma {:induction false} SplitOnPieces(s: string, sep: char)
    ensures forall n :: 0 <= n < |SplitOn(s, sep)| ==> sep !in SplitOn(s, sep)[n]
    decreases |s|
  {
    if s != [] {
      SplitOnPieces(s[1..], sep);
    }
  }

  /** `sep.join(parts)` */
  function JoinWith(parts: seq<string>, sep: char): string
    requires |parts| >= 1
  {
    if |parts| == 1 then parts[0] else parts[0] + [sep] + JoinWith(parts[1..], sep)
  }

  /** Splitting on `sep` loses nothing: joining the pieces with `sep` gives
      back the original text. */
  lemma {:induction false} SplitOnJoin(s: string, sep: char)
    ensures JoinWith(SplitOn(s, sep), sep) == s
    decreases |s|
  {
    if s != [] {
      var rest := SplitOn(s[1..], sep);
      SplitOnJoin(s[1..], sep);
      if s[0] == sep {
        assert SplitOn(s, sep)[1..] == rest;
      } else if |rest| == 1 {
      } else {
        var parts := SplitOn(s, sep);
        assert parts[1..] == rest[1..];
        assert JoinWith(rest, sep) == rest[0] + [sep] + JoinWith(rest[1..], sep);
      }
    }
  }
}
