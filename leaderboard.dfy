/** The Leaderboard: `get_leaderboard` picks the `n` rows with the largest
    overall score and the `n` rows with the smallest, as pandas `nlargest` and
    `nsmallest` do with their default `keep='first'`: ties go to the row that
    comes first in the table. Both are modelled as a stable sort on a key
    followed by taking a prefix; the smallest scores are the largest of the
    negated score. */
module Ranking {
  import opened Seqs
  import opened Aggregation
  import opened Score

  /** Inserts `x` in front of the first element whose key is not larger than
      its own, so that `x` precedes every element of equal key. */
  function InsertByKey<T>(x: T, s: seq<T>, key: T -> real): (r: seq<T>)
    ensures |r| == |s| + 1
    ensures multiset(r) == multiset(s) + multiset{x}
  {
    if s == [] || key(s[0]) <= key(x) then [x] + s
    else
      var rest := InsertByKey(x, s[1..], key);
      assert s == [s[0]] + s[1..];
      [s[0]] + rest
  }

  /** A stable sort by descending key. */
  function SortByKey<T>(s: seq<T>, key: T -> real): (r: seq<T>)
    ensures |r| == |s|
    ensures multiset(r) == multiset(s)
  {
    if s == [] then []
    else
      assert s == [s[0]] + s[1..];
      InsertByKey(s[0], SortByKey(s[1..], key), key)
  }

  predicate Descending<T>(s: seq<T>, key: T -> real)
  {
    forall i, j :: 0 <= i < j < |s| ==> key(s[i]) >= key(s[j])
  }

  /** The elements whose key equals `v`, and those whose key is above or below it. */
  function KeyIs<T>(key: T -> real, v: real): T -> bool { x => key(x) == v }
  function KeyAbove<T>(key: T -> real, v: real): T -> bool { x => key(x) > v }
  function KeyBelow<T>(key: T -> real, v: real): T -> bool { x => key(x) < v }

  lemma {:induction false} InsertDescending<T>(x: T, s: seq<T>, key: T -> real)
    requires Descending(s, key)
    ensures Descending(InsertByKey(x, s, key), key)
  {
    if s == [] || key(s[0]) <= key(x) {
      ConsDescending(x, s, key);
    } else {
      InsertDescending(x, s[1..], key);
      var rest := InsertByKey(x, s[1..], key);
      forall y | y in rest ensures key(y) <= key(s[0]) {
        assert y in multiset(rest);
        if y != x {
          assert y in s[1..];
        }
      }
      ConsDescending(s[0], rest, key);
    }
  }

  /** An element with a key at least that of every element of a descending
      sequence can go in front of it. */
  lemma {:induction false} ConsDescending<T>(h: T, s: seq<T>, key: T -> real)
    requires Descending(s, key)
    requires forall y :: y in s ==> key(y) <= key(h)
    ensures Descending([h] + s, key)
  {
    var r := [h] + s;
    forall i, j | 0 <= i < j < |r| ensures key(r[i]) >= key(r[j]) {
      assert r[j] == s[j - 1];
      if i > 0 {
        assert r[i] == s[i - 1];
      }
    }
  }

  /** The sorted sequence is in descending key order. */
  lemma {:induction false} SortDescending<T>(s: seq<T>, key: T -> real)
    ensures Descending(SortByKey(s, key), key)
  {
    if s != [] {
      SortDescending(s[1..], key);
      InsertDescending(s[0], SortByKey(s[1..], key), key);
    }
  }

  lemma {:induction false} InsertStable<T(!new)>(x: T, s: seq<T>, key: T -> real, v: real)
    ensures Select(InsertByKey(x, s, key), KeyIs(key, v))
         == if key(x) == v then [x] + Select(s, KeyIs(key, v)) else Select(s, KeyIs(key, v))
  {
    var p := KeyIs(key, v);
    if s == [] || key(s[0]) <= key(x) {
      assert ([x] + s)[1..] == s;
    } else {
      InsertStable(x, s[1..], key, v);
      var rest := InsertByKey(x, s[1..], key);
      assert ([s[0]] + rest)[1..] == rest;
    }
  }

  /** Sorting keeps elements of equal key in their original order. */
  lemma {:induction false} SortStable<T(!new)>(s: seq<T>, key: T -> real, v: real)
    ensures Select(SortByKey(s, key), KeyIs(key, v)) == Select(s, KeyIs(key, v))
  {
    if s != [] {
      SortStable(s[1..], key, v);
      InsertStable(s[0], SortByKey(s[1..], key), key, v);
    }
  }

  /** `nlargest(n)`: the first `n` elements by descending key. It returns
      `min(n, |s|)` elements of `s`, none when `n` is not positive, in
      descending key order. */
  function Largest<T>(s: seq<T>, n: int, key: T -> real): (r: seq<T>)
    ensures |r| == TakeCount(|s|, n)
    ensures multiset(r) <= multiset(s)
    ensures Descending(r, key)
  {
    var sorted := SortByKey(s, key);
    SortDescending(s, key);
    PrefixOfSorted(sorted, TakeCount(|s|, n), key);
    if n <= 0 then [] else if n >= |s| then sorted else sorted[..n]
  }

  function TakeCount(len: nat, n: int): nat
  {
    if n <= 0 then 0 else if n >= len then len else n
  }

  /** `Largest` is the first `TakeCount(|s|, n)` elements of the sorted sequence. */
  lemma {:induction false} LargestIsPrefix<T>(s: seq<T>, n: int, key: T -> real)
    ensures TakeCount(|s|, n) <= |s|
    ensures Largest(s, n, key) == SortByKey(s, key)[..TakeCount(|s|, n)]
  {
  }

  lemma {:induction false} PrefixOfSorted<T>(s: seq<T>, m: nat, key: T -> real)
    requires m <= |s| && Descending(s, key)
    ensures multiset(s[..m]) <= multiset(s)
    ensures Descending(s[..m], key)
  {
    assert s == s[..m] + s[m..];
    assert multiset(s) == multiset(s[..m]) + multiset(s[m..]);
  }

  /** No element left out of `nlargest(n)` has a larger key than one kept. */
  lemma {:induction false} LargestDominates<T>(s: seq<T>, n: int, key: T -> real)
    ensures forall x, y ::
              x in Largest(s, n, key) && y in multiset(s) - multiset(Largest(s, n, key)) ==> key(y) <= key(x)
  {
    var sorted := SortByKey(s, key);
    var m := TakeCount(|s|, n);
    LargestIsPrefix(s, n, key);
    assert forall x, y :: x in sorted[..m] && y in multiset(sorted[m..]) ==> key(y) <= key(x) by {
      SortDescending(s, key);
      PrefixDominates(sorted, m, key);
    }
    assert multiset(s) - multiset(sorted[..m]) == multiset(sorted[m..]) by {
      assert sorted == sorted[..m] + sorted[m..];
    }
  }

  /** In a descending sequence, no element after position `m` has a larger
      key than one before it. */
  lemma {:induction false} PrefixDominates<T>(s: seq<T>, m: nat, key: T -> real)
    requires m <= |s| && Descending(s, key)
    ensures forall x, y :: x in s[..m] && y in multiset(s[m..]) ==> key(y) <= key(x)
  {
    forall x, y | x in s[..m] && y in multiset(s[m..]) ensures key(y) <= key(x) {
      var i :| 0 <= i < m && s[i] == x;
      assert y in s[m..];
      var j :| m <= j < |s| && s[j] == y;
    }
  }

  /** Among elements of equal key, `nlargest(n)` keeps the earliest of `s`,
      in their order (`keep='first'`). */
  lemma {:induction false} LargestKeepsFirst<T(!new)>(s: seq<T>, n: int, key: T -> real, v: real)
    ensures Select(Largest(s, n, key), KeyIs(key, v)) <= Select(s, KeyIs(key, v))
  {
    LargestIsPrefix(s, n, key);
    SelectPrefix(SortByKey(s, key), TakeCount(|s|, n), KeyIs(key, v));
    SortStable(s, key, v);
  }

  /** An element of `Largest(s, n, key)` has fewer than `n` elements of `s`
      with a strictly larger key. */
  lemma {:induction false} LargestAboveCount<T(!new)>(s: seq<T>, n: int, key: T -> real, x: T)
    ensures x in Largest(s, n, key) ==> |Select(s, KeyAbove(key, key(x)))| < n
  {
    if x in Largest(s, n, key) {
      var sorted := SortByKey(s, key);
      LargestIsPrefix(s, n, key);
      SortDescending(s, key);
      var i :| 0 <= i < TakeCount(|s|, n) && sorted[i] == x;
      AboveCountInSorted(sorted, i, key);
      SelectPermutation(s, sorted, KeyAbove(key, key(x)));
    }
  }

  /** An element of `s` left out of `Largest(s, n, key)`, whose key no other
      element shares, has at least `n` elements with a larger key. */
  lemma {:induction false} LeftOutAboveCount<T(!new)>(s: seq<T>, n: int, key: T -> real, x: T)
    requires x in s && x !in Largest(s, n, key)
    requires forall y :: y in s && key(y) == key(x) ==> y == x
    ensures n <= |Select(s, KeyAbove(key, key(x)))|
  {
    var top := Largest(s, n, key);
    var p := KeyAbove(key, key(x));
    if n > 0 {
      LargestDominates(s, n, key);
      assert x in multiset(s) - multiset(top);
      forall i | 0 <= i < |top| ensures p(top[i]) {
        var y := top[i];
        assert y in multiset(s);
        assert key(x) <= key(y);
        assert y != x;
      }
      SelectAll(top, p);
      SelectSubMultiset(top, s, p);
    }
  }

  /** In a sequence in descending key order, the elements with a key above
      that of position `i` all come before `i`. */
  lemma {:induction false} AboveCountInSorted<T(!new)>(s: seq<T>, i: nat, key: T -> real)
    requires i < |s| && Descending(s, key)
    ensures |Select(s, KeyAbove(key, key(s[i])))| <= i
  {
    var p := KeyAbove(key, key(s[i]));
    assert s == s[..i] + s[i..];
    SelectAppend(s[..i], s[i..], p);
    forall j | 0 <= j < |s[i..]| ensures !p(s[i..][j]) {
      assert s[i..][j] == s[i + j];
    }
    SelectNone(s[i..], p);
    SelectSpec(s[..i], p);
  }

  /** Every element falls in exactly one of below, equal and above. */
  lemma {:induction false} CountSplit<T>(s: seq<T>, key: T -> real, c: real)
    ensures |Select(s, KeyBelow(key, c))| + |Select(s, KeyIs(key, c))| + |Select(s, KeyAbove(key, c))| == |s|
  {
    if s != [] {
      CountSplit(s[1..], key, c);
    }
  }

  function Overall(k: Kpi): real { k.overall }
  function NegatedOverall(k: Kpi): real { -k.overall }

  /** `get_leaderboard`: the top and the bottom `n` rows by overall score.
      Each list has `min(n, |t|)` rows of the table, none when `n` is not
      positive; the top by descending score, the bottom by ascending score. */
  function Leaderboard(t: seq<Kpi>, n: int): (r: (seq<Kpi>, seq<Kpi>))
    ensures |r.0| == TakeCount(|t|, n) && |r.1| == TakeCount(|t|, n)
    ensures multiset(r.0) <= multiset(t) && multiset(r.1) <= multiset(t)
    ensures forall i, j :: 0 <= i < j < |r.0| ==> r.0[i].overall >= r.0[j].overall
    ensures forall i, j :: 0 <= i < j < |r.1| ==> r.1[i].overall <= r.1[j].overall
  {
    var top := Largest(t, n, Overall);
    var bottom := Largest(t, n, NegatedOverall);
    forall i, j | 0 <= i < j < |top| ensures top[i].overall >= top[j].overall {
      assert Overall(top[i]) >= Overall(top[j]);
    }
    forall i, j | 0 <= i < j < |bottom| ensures bottom[i].overall <= bottom[j].overall {
      assert NegatedOverall(bottom[i]) >= NegatedOverall(bottom[j]);
    }
    (top, bottom)
  }

  /** Negating the key turns "below" into "above" and keeps "equal". */
  lemma {:induction false} NegatedSelections(s: seq<Kpi>, c: real)
    ensures Select(s, KeyIs(NegatedOverall, -c)) == Select(s, KeyIs(Overall, c))
    ensures Select(s, KeyAbove(NegatedOverall, -c)) == Select(s, KeyBelow(Overall, c))
  {
    forall i | 0 <= i < |s|
      ensures KeyIs(NegatedOverall, -c)(s[i]) == KeyIs(Overall, c)(s[i])
      ensures KeyAbove(NegatedOverall, -c)(s[i]) == KeyBelow(Overall, c)(s[i])
    {
      assert NegatedOverall(s[i]) == -Overall(s[i]);
    }
    SelectCongruent(s, KeyIs(NegatedOverall, -c), KeyIs(Overall, c));
    SelectCongruent(s, KeyAbove(NegatedOverall, -c), KeyBelow(Overall, c));
  }

  /** No row left out of the top has a larger score than a top row, and no
      row left out of the bottom has a smaller score than a bottom row. */
  lemma {:induction false} LeaderboardDominates(t: seq<Kpi>, n: int)
    ensures var (top, bottom) := Leaderboard(t, n);
      && (forall x, y :: x in top && y in multiset(t) - multiset(top) ==> y.overall <= x.overall)
      && (forall x, y :: x in bottom && y in multiset(t) - multiset(bottom) ==> y.overall >= x.overall)
  {
    var (top, bottom) := Leaderboard(t, n);
    LargestDominates(t, n, Overall);
    LargestDominates(t, n, NegatedOverall);
    forall x, y | x in top && y in multiset(t) - multiset(top) ensures y.overall <= x.overall {
      assert Overall(y) <= Overall(x);
    }
    forall x, y | x in bottom && y in multiset(t) - multiset(bottom) ensures y.overall >= x.overall {
      assert NegatedOverall(y) <= NegatedOverall(x);
    }
  }

  /** Among rows of equal score, both lists keep the earliest rows of the
      table, in table order. */
  lemma {:induction false} LeaderboardKeepsFirst(t: seq<Kpi>, n: int, v: real)
    ensures var (top, bottom) := Leaderboard(t, n);
      && Select(top, KeyIs(Overall, v)) <= Select(t, KeyIs(Overall, v))
      && Select(bottom, KeyIs(Overall, v)) <= Select(t, KeyIs(Overall, v))
  {
    LargestKeepsFirst(t, n, Overall, v);
    SmallestKeepsFirst(t, n, v);
  }

  lemma {:induction false} SmallestKeepsFirst(t: seq<Kpi>, n: int, v: real)
    ensures Select(Largest(t, n, NegatedOverall), KeyIs(Overall, v)) <= Select(t, KeyIs(Overall, v))
  {
    var bottom := Largest(t, n, NegatedOverall);
    LargestKeepsFirst(t, n, NegatedOverall, -v);
    var kept := Select(bottom, KeyIs(NegatedOverall, -v));
    var all := Select(t, KeyIs(NegatedOverall, -v));
    assert kept <= all;
    NegatedSelections(bottom, v);
    NegatedSelections(t, v);
  }

  predicate DistinctScores(t: seq<Kpi>)
  {
    forall i, j :: 0 <= i < j < |t| ==> t[i].overall != t[j].overall
  }

  lemma {:induction false} AtMostOneWithScore(t: seq<Kpi>, c: real)
    requires DistinctScores(t)
    ensures |Select(t, KeyIs(Overall, c))| <= 1
  {
    if t != [] {
      if t[0].overall == c {
        forall i | 0 <= i < |t[1..]| ensures !KeyIs(Overall, c)(t[1..][i]) {
          assert t[1..][i] == t[i + 1];
          assert Overall(t[i + 1]) != c;
        }
        SelectNone(t[1..], KeyIs(Overall, c));
      } else {
        assert !KeyIs(Overall, c)(t[0]);
        AtMostOneWithScore(t[1..], c);
      }
    }
  }

  /** With pairwise distinct scores and at least `2 n` rows, no row is both in
      the top and in the bottom rows. */
  lemma {:induction false} LeaderboardDisjoint(t: seq<Kpi>, n: int)
    requires DistinctScores(t)
    requires |t| >= 2 * n
    ensures var (top, bottom) := Leaderboard(t, n);
      forall x :: x in top ==> x !in bottom
  {
    var (top, bottom) := Leaderboard(t, n);
    forall x | x in top ensures x !in bottom {
      var c := x.overall;
      LargestAboveCount(t, n, Overall, x);
      LargestAboveCount(t, n, NegatedOverall, x);
      NegatedSelections(t, c);
      AtMostOneWithScore(t, c);
      CountSplit(t, Overall, c);
    }
  }

  /** With pairwise distinct scores and at most `2 n` rows, every row is in
      the top or in the bottom rows. */
  lemma {:induction false} LeaderboardCovers(t: seq<Kpi>, n: int)
    requires DistinctScores(t)
    requires |t| <= 2 * n
    ensures var (top, bottom) := Leaderboard(t, n);
      forall x :: x in t ==> x in top || x in bottom
  {
    forall x | x in t ensures x in Leaderboard(t, n).0 || x in Leaderboard(t, n).1 {
      LeftOutOfBoth(t, n, x);
    }
  }

  /** A row with a score of its own that is in neither list has `n` rows
      above it, `n` rows below it and itself. */
  lemma {:induction false} LeftOutOfBoth(t: seq<Kpi>, n: int, x: Kpi)
    requires DistinctScores(t) && x in t
    ensures x !in Largest(t, n, Overall) && x !in Largest(t, n, NegatedOverall) ==> |t| > 2 * n
  {
    if x !in Largest(t, n, Overall) && x !in Largest(t, n, NegatedOverall) {
      var c := x.overall;
      assert n <= |Select(t, KeyAbove(Overall, c))| by {
        UniqueScore(t, x);
        LeftOutAboveCount(t, n, Overall, x);
      }
      LeftOutBelowCount(t, n, x);
      assert 1 <= |Select(t, KeyIs(Overall, c))| by {
        AtLeastOneWithScore(t, x);
      }
      CountSplit(t, Overall, c);
    }
  }

  /** A row with a score of its own left out of the bottom has at least `n`
      rows below it. */
  lemma {:induction false} LeftOutBelowCount(t: seq<Kpi>, n: int, x: Kpi)
    requires DistinctScores(t) && x in t && x !in Largest(t, n, NegatedOverall)
    ensures n <= |Select(t, KeyBelow(Overall, x.overall))|
  {
    var bottom := Largest(t, n, NegatedOverall);
    var c := x.overall;
    var p := KeyBelow(Overall, c);
    if n > 0 {
      assert forall y :: y in bottom ==> y.overall <= c by {
        LeaderboardDominates(t, n);
        assert x in multiset(t) - multiset(bottom);
      }
      UniqueScore(t, x);
      forall i | 0 <= i < |bottom| ensures p(bottom[i]) {
        var y := bottom[i];
        assert y in multiset(t);
        assert y != x;
        assert Overall(y) < c;
      }
      SelectAll(bottom, p);
      SelectSubMultiset(bottom, t, p);
    }
  }

  lemma AtLeastOneWithScore(t: seq<Kpi>, x: Kpi)
    requires x in t
    ensures 1 <= |Select(t, KeyIs(Overall, x.overall))|
  {
    SelectSpec(t, KeyIs(Overall, x.overall));
    assert KeyIs(Overall, x.overall)(x);
    assert x in Select(t, KeyIs(Overall, x.overall));
  }

  /** With pairwise distinct scores, no other row shares the score of `x`. */
  lemma UniqueScore(t: seq<Kpi>, x: Kpi)
    requires DistinctScores(t) && x in t
    ensures forall y :: y in t && Overall(y) == Overall(x) ==> y == x
  {
    forall y | y in t && Overall(y) == Overall(x) ensures y == x {
      var i :| 0 <= i < |t| && t[i] == x;
      var j :| 0 <= j < |t| && t[j] == y;
      assert i == j;
    }
  }

  /** With all keys equal, sorting leaves the sequence as it is. */
  lemma {:induction false} SortTied<T>(s: seq<T>, key: T -> real, c: real)
    requires forall i :: 0 <= i < |s| ==> key(s[i]) == c
    ensures SortByKey(s, key) == s
  {
    if s != [] {
      SortTied(s[1..], key, c);
      assert s == [s[0]] + s[1..];
    }
  }

  /** With equal scores the two lists share rows even when the table has
      `2 n` rows and every row is a different vendor: with four rows tied and
      `n = 2`, the top and the bottom are both the first two rows, because
      both keep the earliest rows. */
  lemma {:induction false} TiedScoresShareRows(t: seq<Kpi>, c: real)
    requires |t| == 4
    requires forall i :: 0 <= i < |t| ==> t[i].overall == c
    requires forall i, j :: 0 <= i < j < |t| ==> t[i].summary.vendor != t[j].summary.vendor
    ensures Leaderboard(t, 2) == (t[..2], t[..2])
    ensures t[0] in Leaderboard(t, 2).0 && t[0] in Leaderboard(t, 2).1
  {
    SortTied(t, Overall, c);
    SortTied(t, NegatedOverall, -c);
  }
}
