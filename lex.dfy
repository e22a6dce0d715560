/** The order in which pandas' `groupby` emits string keys: Python's `<` on
    `str`, which compares code points left to right and puts a proper prefix
    first. Group keys are kept in a strictly ascending sequence. */
module Lex {
  import opened Seqs

  predicate Less(a: string, b: string)
  {
    b != [] && (a == [] || a[0] < b[0] || (a[0] == b[0] && Less(a[1..], b[1..])))
  }

  lemma {:induction false} LessIrreflexive(a: string)
    ensures !Less(a, a)
  {
    if a != [] {
      LessIrreflexive(a[1..]);
    }
  }

  lemma {:induction false} LessTransitive(a: string, b: string, c: string)
    requires Less(a, b) && Less(b, c)
    ensures Less(a, c)
  {
    if a != [] && a[0] == b[0] && b[0] == c[0] {
      LessTransitive(a[1..], b[1..], c[1..]);
    }
  }

  /** Any two different strings are ordered one way or the other. */
  lemma {:induction false} LessTotal(a: string, b: string)
    ensures a == b || Less(a, b) || Less(b, a)
  {
    if a != [] && b != [] && a[0] == b[0] {
      LessTotal(a[1..], b[1..]);
      if a[1..] == b[1..] {
        assert a == [a[0]] + a[1..] && b == [b[0]] + b[1..];
      }
    }
  }

  predicate StrictlySorted(vs: seq<string>)
  {
    forall i, j :: 0 <= i < j < |vs| ==> Less(vs[i], vs[j])
  }

  /** Adds key `v` to the ascending key list `vs` unless it is already there. */
  function Insert(v: string, vs: seq<string>): (r: seq<string>)
    requires StrictlySorted(vs)
    ensures StrictlySorted(r)
    ensures forall x :: x in r <==> x == v || x in vs
  {
    if vs == [] then [v]
    else if v == vs[0] then vs
    else if Less(v, vs[0]) then
      assert forall j :: 0 < j < |vs| ==> Less(v, vs[j]) by {
        forall j | 0 < j < |vs| { LessTransitive(v, vs[0], vs[j]); }
      }
      [v] + vs
    else
      var rest := Insert(v, vs[1..]);
      LessTotal(v, vs[0]);
      assert forall x :: x in rest ==> Less(vs[0], x);
      [vs[0]] + rest
  }

  /** Two ascending key lists with the same keys are the same list. */
  lemma {:induction false} StrictlySortedUnique(xs: seq<string>, ys: seq<string>)
    requires StrictlySorted(xs) && StrictlySorted(ys)
    requires forall x :: x in xs <==> x in ys
    ensures xs == ys
  {
    assert xs != [] ==> xs[0] in ys;
    assert ys != [] ==> ys[0] in xs;
    if xs != [] && ys != [] {
      assert xs[0] in ys && ys[0] in xs;
      var i :| 0 <= i < |ys| && ys[i] == xs[0];
      var j :| 0 <= j < |xs| && xs[j] == ys[0];
      if i != 0 {
        LessIrreflexive(xs[0]);
        assert j != 0;
        LessTransitive(xs[0], xs[j], xs[0]);
      }
      forall x | x in xs[1..] ensures x in ys[1..] {
        var k :| 1 <= k < |xs| && xs[k] == x;
        LessIrreflexive(xs[0]);
        assert x in ys;
        var m :| 0 <= m < |ys| && ys[m] == x;
        assert m != 0;
      }
      forall x | x in ys[1..] ensures x in xs[1..] {
        var k :| 1 <= k < |ys| && ys[k] == x;
        LessIrreflexive(ys[0]);
        assert x in xs;
        var m :| 0 <= m < |xs| && xs[m] == x;
        assert m != 0;
      }
      StrictlySortedUnique(xs[1..], ys[1..]);
      assert xs == [xs[0]] + xs[1..] && ys == [ys[0]] + ys[1..];
    }
  }
}
