/** The optimiser's list of evaluated points and the order that
    `existing_points.sort(key=lambda x: x[0], reverse=(mode == 'min'))` puts
    on it: worse scores first, the best score last. Python's sort is stable,
    also with `reverse=True`, so points with equal scores keep their order. */
module PointSet {
  import opened Floats

  /** `--optimization-type` */
  datatype Mode = Min | Max

  /** A point `(score, x1, ..., xd)`: its score and its coordinates. */
  datatype Point = Point(score: Ext, coords: seq<Ext>)

  /** Score `a` is strictly better than score `b`: lower when minimising,
      higher when maximising. */
  predicate Better(a: Ext, b: Ext, m: Mode)
  {
    if m == Min then Lt(a, b) else Lt(b, a)
  }

  /** "Not strictly better" is a total preorder. */
  lemma NotBetterTransitive(a: Ext, b: Ext, c: Ext, m: Mode)
    requires !Better(a, b, m) && !Better(b, c, m)
    ensures !Better(a, c, m)
  {
    if m == Min { LeTransitive(c, b, a); } else { LeTransitive(a, b, c); }
  }

  lemma BetterAsymmetric(a: Ext, b: Ext, m: Mode)
    requires Better(a, b, m)
    ensures !Better(b, a, m) && a != b
  {
    LeTotal(a, b);
  }

  /** One step of the sort: `x`, which follows every element of the sorted
      list `t` in the input, goes after every element that is not strictly
      better than it. */
  function Insert(t: seq<Point>, x: Point, m: Mode): seq<Point>
    decreases |t|
  {
    if t != [] && Better(t[|t| - 1].score, x.score, m)
    then Insert(t[..|t| - 1], x, m) + [t[|t| - 1]]
    else t + [x]
  }

  /** The list as Python's stable `sort` by score leaves it. */
  function StableSort(s: seq<Point>, m: Mode): seq<Point>
    decreases |s|
  {
    if s == [] then [] else Insert(StableSort(s[..|s| - 1], m), s[|s| - 1], m)
  }

  /** No point is strictly better than a point after it. */
  predicate Sorted(s: seq<Point>, m: Mode)
  {
    forall i, j :: 0 <= i < j < |s| ==> !Better(s[i].score, s[j].score, m)
  }

  /** The points of `s` whose score is `v`, in their order in `s`. */
  function WithScore(s: seq<Point>, v: Ext): seq<Point>
    decreases |s|
  {
    if s == [] then []
    else WithScore(s[..|s| - 1], v) + (if s[|s| - 1].score == v then [s[|s| - 1]] else [])
  }

  lemma {:induction false} InsertPermutes(t: seq<Point>, x: Point, m: Mode)
    ensures multiset(Insert(t, x, m)) == multiset(t) + multiset{x}
    decreases |t|
  {
    if t != [] && Better(t[|t| - 1].score, x.score, m) {
      InsertPermutes(t[..|t| - 1], x, m);
      assert t == t[..|t| - 1] + [t[|t| - 1]];
    }
  }

  lemma SortedSnoc(u: seq<Point>, y: Point, m: Mode)
    requires Sorted(u, m)
    requires forall i :: 0 <= i < |u| ==> !Better(u[i].score, y.score, m)
    ensures Sorted(u + [y], m)
  {
  }

  lemma {:induction false} InsertSorted(t: seq<Point>, x: Point, m: Mode)
    requires Sorted(t, m)
    ensures Sorted(Insert(t, x, m), m)
    decreases |t|
  {
    if t != [] && Better(t[|t| - 1].score, x.score, m) {
      var y := t[|t| - 1];
      var t' := t[..|t| - 1];
      var u := Insert(t', x, m);
      InsertSorted(t', x, m);
      InsertPermutes(t', x, m);
      forall i | 0 <= i < |u|
        ensures !Better(u[i].score, y.score, m)
      {
        assert u[i] in multiset(u);
        if u[i] == x {
          BetterAsymmetric(y.score, x.score, m);
        } else {
          assert u[i] in multiset(t');
          var k :| 0 <= k < |t'| && t'[k] == u[i];
          assert t[k] == u[i];
        }
      }
      SortedSnoc(u, y, m);
    } else if t != [] {
      var y := t[|t| - 1];
      forall i | 0 <= i < |t|
        ensures !Better(t[i].score, x.score, m)
      {
        if i < |t| - 1 {
          NotBetterTransitive(t[i].score, y.score, x.score, m);
        }
      }
      SortedSnoc(t, x, m);
    }
  }

  /** Inserting keeps the points of every score in their input order, with
      `x` after the ones already there. */
  lemma {:induction false} InsertStable(t: seq<Point>, x: Point, m: Mode, v: Ext)
    ensures WithScore(Insert(t, x, m), v) == WithScore(t, v) + (if x.score == v then [x] else [])
    decreases |t|
  {
    if t != [] && Better(t[|t| - 1].score, x.score, m) {
      var y := t[|t| - 1];
      var t' := t[..|t| - 1];
      var u := Insert(t', x, m);
      InsertStable(t', x, m, v);
      BetterAsymmetric(y.score, x.score, m);
      assert Insert(t, x, m) == u + [y];
      WithScoreSnoc(u, y, v);
      assert t' + [y] == t;
      WithScoreSnoc(t', y, v);
      var w := WithScore(t', v);
      if y.score == v {
        assert x.score != v;
        assert WithScore(u, v) == w;
        assert WithScore(t, v) == w + [y];
      } else {
        assert WithScore(u + [y], v) == WithScore(u, v);
        assert WithScore(t, v) == w;
      }
    } else {
      assert Insert(t, x, m) == t + [x];
      WithScoreSnoc(t, x, v);
    }
  }

  lemma WithScoreSnoc(u: seq<Point>, y: Point, v: Ext)
    ensures WithScore(u + [y], v) == WithScore(u, v) + (if y.score == v then [y] else [])
  {
  }

  /** The sort orders the points from worst to best score. */
  lemma {:induction false} StableSortSorted(s: seq<Point>, m: Mode)
    ensures Sorted(StableSort(s, m), m)
    decreases |s|
  {
    if s != [] {
      StableSortSorted(s[..|s| - 1], m);
      InsertSorted(StableSort(s[..|s| - 1], m), s[|s| - 1], m);
    }
  }

  /** The sort neither loses nor adds a point. */
  lemma {:induction false} StableSortPermutes(s: seq<Point>, m: Mode)
    ensures multiset(StableSort(s, m)) == multiset(s)
    ensures |StableSort(s, m)| == |s|
    decreases |s|
  {
    if s != [] {
      StableSortPermutes(s[..|s| - 1], m);
      InsertPermutes(StableSort(s[..|s| - 1], m), s[|s| - 1], m);
      assert s == s[..|s| - 1] + [s[|s| - 1]];
    }
  }

  /** The sort is stable: the points of any one score come out in the order
      they went in. */
  lemma {:induction false} StableSortStable(s: seq<Point>, m: Mode, v: Ext)
    ensures WithScore(StableSort(s, m), v) == WithScore(s, v)
    decreases |s|
  {
    if s != [] {
      StableSortStable(s[..|s| - 1], m, v);
      InsertStable(StableSort(s[..|s| - 1], m), s[|s| - 1], m, v);
    }
  }

  /** The index of the best point of `s`, the last one among equals: no
      point of `s` is strictly better, and every later point is strictly
      worse. */
  function BestIndex(s: seq<Point>, m: Mode): (k: nat)
    requires s != []
    ensures k < |s|
    ensures forall j :: 0 <= j < |s| ==> !Better(s[j].score, s[k].score, m)
    ensures forall j :: k < j < |s| ==> Better(s[k].score, s[j].score, m)
    decreases |s|
  {
    if |s| == 1 then 0
    else
      var k := BestIndex(s[..|s| - 1], m);
      if Better(s[k].score, s[|s| - 1].score, m) then
        assert forall j :: 0 <= j < |s| - 1 ==> !Better(s[j].score, s[k].score, m) by {
          assert forall j :: 0 <= j < |s| - 1 ==> s[..|s| - 1][j] == s[j];
        }
        BetterAsymmetric(s[k].score, s[|s| - 1].score, m);
        k
      else
        assert forall j :: 0 <= j < |s| - 1 ==> !Better(s[j].score, s[|s| - 1].score, m) by {
          forall j | 0 <= j < |s| - 1
            ensures !Better(s[j].score, s[|s| - 1].score, m)
          {
            assert s[..|s| - 1][j] == s[j];
            NotBetterTransitive(s[j].score, s[k].score, s[|s| - 1].score, m);
          }
        }
        |s| - 1
  }

  /** After the sort, the last point is the best point of the list, and
      among points of equal best score the one that came last. */
  lemma {:induction false} StableSortLastIsBest(s: seq<Point>, m: Mode)
    requires s != []
    ensures |StableSort(s, m)| == |s|
    ensures StableSort(s, m)[|s| - 1] == s[BestIndex(s, m)]
    decreases |s|
  {
    StableSortPermutes(s, m);
    if |s| > 1 {
      var s' := s[..|s| - 1];
      StableSortLastIsBest(s', m);
      StableSortPermutes(s', m);
      var t := StableSort(s', m);
      var x := s[|s| - 1];
      assert t[|t| - 1] == s[BestIndex(s', m)];
      if Better(t[|t| - 1].score, x.score, m) {
        assert StableSort(s, m) == Insert(t[..|t| - 1], x, m) + [t[|t| - 1]];
      } else {
        assert StableSort(s, m) == t + [x];
      }
    }
  }

  /** The point used when the list is empty: the origin, with the score
      `-inf` when minimising and `inf` when maximising. */
  function Origin(m: Mode, dim: nat): Point
  {
    Point(if m == Min then NegInf else PosInf, seq(dim, _ => Fin(0.0)))
  }

  /** `existing_points[-1]` of the sorted list, or the origin if it is empty. */
  function BestPoint(sorted: seq<Point>, m: Mode, dim: nat): Point
  {
    if sorted == [] then Origin(m, dim) else sorted[|sorted| - 1]
  }

  /** What the loop takes as its best point after sorting: the origin for an
      empty list (`dim` zeros, score `-inf` when minimising and `inf` when
      maximising), otherwise the last-occurring point of extremal score. */
  lemma BestAfterSort(s: seq<Point>, m: Mode, dim: nat)
    ensures s == [] ==> BestPoint(StableSort(s, m), m, dim).score == (if m == Min then NegInf else PosInf)
    ensures s == [] ==> BestPoint(StableSort(s, m), m, dim).coords == seq(dim, _ => Fin(0.0))
    ensures s != [] ==> BestPoint(StableSort(s, m), m, dim) == s[BestIndex(s, m)]
  {
    if s != [] {
      StableSortLastIsBest(s, m);
    }
  }
}
