/** Sequence operations the table pipeline is built from: a boolean-mask
    selection (what `df[mask]` does to the rows of a frame) and the sum of a
    numeric column, with the facts about them that the pipeline relies on. */
module Seqs {

  /** `r` can be obtained from `s` by deleting elements, keeping the order of the rest. */
  predicate IsSubsequence<T(==)>(r: seq<T>, s: seq<T>)
    decreases |s|
  {
    r == [] || (s != [] && ((r[0] == s[0] && IsSubsequence(r[1..], s[1..])) || IsSubsequence(r, s[1..])))
  }

  /** The elements of `s` that satisfy `p`, in their original order. */
  function Select<T>(s: seq<T>, p: T -> bool): seq<T>
  {
    if s == [] then []
    else if p(s[0]) then [s[0]] + Select(s[1..], p)
    else Select(s[1..], p)
  }

  /** A selection is an order-preserving subsequence holding every element
      that passes the mask, as often as it occurs, and nothing else. */
  lemma {:induction false} SelectSpec<T(!new)>(s: seq<T>, p: T -> bool)
    ensures |Select(s, p)| <= |s|
    ensures IsSubsequence(Select(s, p), s)
    ensures forall x :: x in Select(s, p) <==> x in s && p(x)
    ensures forall x :: multiset(Select(s, p))[x] == if p(x) then multiset(s)[x] else 0
  {
    if s != [] {
      SelectSpec(s[1..], p);
      assert s == [s[0]] + s[1..];
      if p(s[0]) {
        assert ([s[0]] + Select(s[1..], p))[1..] == Select(s[1..], p);
      }
    }
  }

  /** The first element of a selection is the first element that passes the mask. */
  lemma {:induction false} SelectFirst<T>(s: seq<T>, p: T -> bool, k: nat)
    requires k < |s| && p(s[k])
    requires forall j :: 0 <= j < k ==> !p(s[j])
    ensures Select(s, p) != [] && Select(s, p)[0] == s[k]
  {
    if k > 0 {
      SelectFirst(s[1..], p, k - 1);
    }
  }

  /** Selecting twice with the same mask selects nothing more. */
  lemma {:induction false} SelectIdempotent<T(!new)>(s: seq<T>, p: T -> bool)
    ensures Select(Select(s, p), p) == Select(s, p)
  {
    if s != [] {
      SelectIdempotent(s[1..], p);
      if p(s[0]) {
        assert ([s[0]] + Select(s[1..], p))[1..] == Select(s[1..], p);
      }
    }
  }

  /** Two masks that agree on the elements of `s` select the same elements. */
  lemma {:induction false} SelectCongruent<T(!new)>(s: seq<T>, p: T -> bool, q: T -> bool)
    requires forall i :: 0 <= i < |s| ==> p(s[i]) == q(s[i])
    ensures Select(s, p) == Select(s, q)
  {
    if s != [] {
      SelectCongruent(s[1..], p, q);
    }
  }

  /** Selecting with `p` and then with `q` is selecting once with their conjunction. */
  lemma {:induction false} SelectSelect<T(!new)>(s: seq<T>, p: T -> bool, q: T -> bool, pq: T -> bool)
    requires forall x :: pq(x) == (p(x) && q(x))
    ensures Select(Select(s, p), q) == Select(s, pq)
  {
    if s != [] {
      SelectSelect(s[1..], p, q, pq);
      if p(s[0]) {
        assert ([s[0]] + Select(s[1..], p))[1..] == Select(s[1..], p);
      }
    }
  }

  /** A mask that every element passes keeps the whole sequence. */
  lemma {:induction false} SelectAll<T(!new)>(s: seq<T>, p: T -> bool)
    requires forall i :: 0 <= i < |s| ==> p(s[i])
    ensures Select(s, p) == s
  {
    if s != [] {
      SelectAll(s[1..], p);
    }
  }

  /** A mask that no element passes keeps nothing. */
  lemma {:induction false} SelectNone<T(!new)>(s: seq<T>, p: T -> bool)
    requires forall i :: 0 <= i < |s| ==> !p(s[i])
    ensures Select(s, p) == []
  {
    if s != [] {
      SelectNone(s[1..], p);
    }
  }

  /** Permuting the input permutes the selection. */
  lemma SelectPermutation<T(!new)>(a: seq<T>, b: seq<T>, p: T -> bool)
    requires multiset(a) == multiset(b)
    ensures multiset(Select(a, p)) == multiset(Select(b, p))
    ensures |Select(a, p)| == |Select(b, p)|
  {
    SelectSpec(a, p);
    SelectSpec(b, p);
    assert multiset(Select(a, p)) == multiset(Select(b, p));
    assert |multiset(Select(a, p))| == |Select(a, p)|;
  }

  /** A sub-multiset has no more elements passing a mask. */
  lemma SelectSubMultiset<T(!new)>(a: seq<T>, b: seq<T>, p: T -> bool)
    requires multiset(a) <= multiset(b)
    ensures |Select(a, p)| <= |Select(b, p)|
  {
    SelectSpec(a, p);
    SelectSpec(b, p);
    var ma, mb := multiset(Select(a, p)), multiset(Select(b, p));
    assert ma <= mb;
    assert mb == ma + (mb - ma);
    assert |ma| == |Select(a, p)| && |mb| == |Select(b, p)|;
  }

  /** Selection distributes over concatenation. */
  lemma {:induction false} SelectAppend<T(!new)>(a: seq<T>, b: seq<T>, p: T -> bool)
    ensures Select(a + b, p) == Select(a, p) + Select(b, p)
  {
    if a == [] {
      assert a + b == b;
    } else {
      assert (a + b)[1..] == a[1..] + b;
      SelectAppend(a[1..], b, p);
    }
  }

  /** Selecting from a prefix gives a prefix of the selection. */
  lemma SelectPrefix<T(!new)>(s: seq<T>, k: nat, p: T -> bool)
    requires k <= |s|
    ensures Select(s[..k], p) <= Select(s, p)
  {
    assert s == s[..k] + s[k..];
    SelectAppend(s[..k], s[k..], p);
  }

  /** The sum of column `f` over the elements of `s`. */
  function Sum<T>(s: seq<T>, f: T -> real): real
  {
    if s == [] then 0.0 else f(s[0]) + Sum(s[1..], f)
  }

  lemma SumSingleton<T>(x: T, f: T -> real)
    ensures Sum([x], f) == f(x)
  {
    assert [x][1..] == [];
  }

  lemma {:induction false} SumAppend<T>(a: seq<T>, b: seq<T>, f: T -> real)
    ensures Sum(a + b, f) == Sum(a, f) + Sum(b, f)
  {
    if a == [] {
      assert a + b == b;
    } else {
      assert (a + b)[1..] == a[1..] + b;
      SumAppend(a[1..], b, f);
    }
  }

  /** Taking element `i` out of `s` lowers the sum by exactly `f(s[i])`. */
  lemma {:induction false} SumRemove<T>(s: seq<T>, i: nat, f: T -> real)
    requires i < |s|
    ensures Sum(s, f) == f(s[i]) + Sum(s[..i] + s[i + 1..], f)
  {
    if i > 0 {
      SumRemove(s[1..], i - 1, f);
      assert s[1..][..i - 1] + s[1..][i..] == (s[..i] + s[i + 1..])[1..];
    } else {
      assert s[..0] + s[1..] == s[1..];
    }
  }

  /** Deleting position `i` removes one occurrence of `s[i]`. */
  lemma MultisetRemove<T>(s: seq<T>, i: nat)
    requires i < |s|
    ensures multiset(s[..i] + s[i + 1..]) == multiset(s) - multiset{s[i]}
  {
    assert s == s[..i] + [s[i]] + s[i + 1..];
    assert multiset(s) == multiset(s[..i]) + multiset{s[i]} + multiset(s[i + 1..]);
  }

  /** Where the head of `a` sits in its permutation `b`; the rests are
      permutations of each other. */
  lemma MatchHead<T>(a: seq<T>, b: seq<T>) returns (i: nat)
    requires a != [] && multiset(a) == multiset(b)
    ensures i < |b| && b[i] == a[0]
    ensures multiset(a[1..]) == multiset(b[..i] + b[i + 1..])
  {
    assert a[0] in multiset(b);
    i :| 0 <= i < |b| && b[i] == a[0];
    MultisetRemove(b, i);
    MultisetRemove(a, 0);
    assert a[..0] + a[1..] == a[1..];
  }

  /** A sum depends only on the multiset of elements, not on their order. */
  lemma {:induction false} SumPermutation<T>(a: seq<T>, b: seq<T>, f: T -> real)
    requires multiset(a) == multiset(b)
    ensures Sum(a, f) == Sum(b, f)
    decreases |a|
  {
    if a == [] {
      assert |b| == |multiset(b)| == 0;
    } else {
      var i := MatchHead(a, b);
      SumPermutation(a[1..], b[..i] + b[i + 1..], f);
      SumRemove(b, i, f);
    }
  }

  lemma {:induction false} SumMonotone<T>(s: seq<T>, f: T -> real, g: T -> real)
    requires forall i :: 0 <= i < |s| ==> f(s[i]) <= g(s[i])
    ensures Sum(s, f) <= Sum(s, g)
  {
    if s != [] {
      SumMonotone(s[1..], f, g);
    }
  }

  lemma {:induction false} SumNonNegative<T>(s: seq<T>, f: T -> real)
    requires forall i :: 0 <= i < |s| ==> 0.0 <= f(s[i])
    ensures 0.0 <= Sum(s, f)
  {
    if s != [] {
      SumNonNegative(s[1..], f);
    }
  }

  /** Bounds on every element bound the sum by the count times the bound. */
  lemma {:induction false} SumBounds<T>(s: seq<T>, f: T -> real, lo: real, hi: real)
    requires forall i :: 0 <= i < |s| ==> lo <= f(s[i]) <= hi
    ensures lo * |s| as real <= Sum(s, f) <= hi * |s| as real
  {
    if s != [] {
      SumBounds(s[1..], f, lo, hi);
    }
  }

  /** Splitting a sequence by a mask and its complement splits its sum. */
  lemma {:induction false} SumSplit<T(!new)>(s: seq<T>, f: T -> real, p: T -> bool, notP: T -> bool)
    requires forall x :: notP(x) == !p(x)
    ensures Sum(s, f) == Sum(Select(s, p), f) + Sum(Select(s, notP), f)
  {
    if s != [] {
      SumSplit(s[1..], f, p, notP);
    }
  }
}
