/** `Array.prototype.filter` and `Array.prototype.reduce` (summing one
    numeric field), the two list operations both management views use. */
module Sequences {

  /** `xs.filter(keep)`: the elements that `keep` accepts, in their order. */
  function Filter<T>(xs: seq<T>, keep: T -> bool): (r: seq<T>)
    ensures |r| <= |xs|
    ensures forall x :: x in r ==> x in xs && keep(x)
  {
    if xs == [] then []
    else if keep(xs[0]) then [xs[0]] + Filter(xs[1..], keep)
    else Filter(xs[1..], keep)
  }

  /** An element is kept exactly when it is in the input and accepted. */
  lemma {:induction false} FilterMembership<T>(xs: seq<T>, keep: T -> bool, x: T)
    ensures x in Filter(xs, keep) <==> x in xs && keep(x)
  {
    if xs != [] {
      FilterMembership(xs[1..], keep, x);
      assert x in xs <==> x == xs[0] || x in xs[1..];
    }
  }

  /** Filtering keeps everything exactly when everything is accepted. */
  lemma {:induction false} FilterKeepsAll<T>(xs: seq<T>, keep: T -> bool)
    ensures Filter(xs, keep) == xs <==> forall x :: x in xs ==> keep(x)
    ensures |Filter(xs, keep)| == |xs| <==> forall x :: x in xs ==> keep(x)
  {
    if xs != [] {
      FilterKeepsAll(xs[1..], keep);
      assert forall x :: x in xs <==> x == xs[0] || x in xs[1..];
      assert xs == [xs[0]] + xs[1..];
    }
  }

  /** Filtering keeps nothing exactly when nothing is accepted. */
  lemma {:induction false} FilterKeepsNone<T>(xs: seq<T>, keep: T -> bool)
    ensures Filter(xs, keep) == [] <==> forall x :: x in xs ==> !keep(x)
  {
    if xs != [] {
      FilterKeepsNone(xs[1..], keep);
      assert forall x :: x in xs <==> x == xs[0] || x in xs[1..];
    }
  }

  /** Filtering a second time with the same test changes nothing. */
  lemma {:induction false} FilterIdempotent<T>(xs: seq<T>, keep: T -> bool)
    ensures Filter(Filter(xs, keep), keep) == Filter(xs, keep)
  {
    FilterKeepsAll(Filter(xs, keep), keep);
  }

  /** Two tests that agree on every element give the same result. */
  lemma {:induction false} FilterCongruent<T>(xs: seq<T>, p: T -> bool, q: T -> bool)
    requires forall x :: x in xs ==> p(x) == q(x)
    ensures Filter(xs, p) == Filter(xs, q)
  {
    if xs != [] {
      assert xs[0] in xs;
      assert forall x :: x in xs[1..] ==> x in xs;
      FilterCongruent(xs[1..], p, q);
    }
  }

  /** Filtering by a conjunction is filtering by one test, then the other. */
  lemma {:induction false} FilterConjunction<T>(xs: seq<T>, both: T -> bool, p: T -> bool, q: T -> bool)
    requires forall x :: x in xs ==> both(x) == (p(x) && q(x))
    ensures Filter(xs, both) == Filter(Filter(xs, p), q)
  {
    if xs != [] {
      assert xs[0] in xs;
      assert forall x :: x in xs[1..] ==> x in xs;
      FilterConjunction(xs[1..], both, p, q);
      if p(xs[0]) {
        assert Filter(xs, p) == [xs[0]] + Filter(xs[1..], p);
        assert Filter(xs, p)[1..] == Filter(xs[1..], p);
      }
    }
  }

  /** Two tests that never both accept an element keep at most the whole
      input between them. */
  lemma {:induction false} FilterDisjointLength<T>(xs: seq<T>, p: T -> bool, q: T -> bool)
    requires forall x :: x in xs ==> !(p(x) && q(x))
    ensures |Filter(xs, p)| + |Filter(xs, q)| <= |xs|
  {
    if xs != [] {
      assert xs[0] in xs;
      assert forall x :: x in xs[1..] ==> x in xs;
      FilterDisjointLength(xs[1..], p, q);
    }
  }

  function Shift(idx: seq<nat>): (r: seq<nat>)
    ensures |r| == |idx|
    ensures forall k :: 0 <= k < |idx| ==> r[k] == idx[k] + 1
  {
    seq(|idx|, k requires 0 <= k < |idx| => idx[k] + 1)
  }

  /** The positions of the input that `keep` accepts, in increasing order. */
  function KeptIndices<T>(xs: seq<T>, keep: T -> bool): seq<nat> {
    if xs == [] then []
    else if keep(xs[0]) then [0] + Shift(KeptIndices(xs[1..], keep))
    else Shift(KeptIndices(xs[1..], keep))
  }

  ghost predicate StrictlyIncreasing(idx: seq<nat>) {
    forall k, l :: 0 <= k < l < |idx| ==> idx[k] < idx[l]
  }

  /** The result picks out the input at strictly increasing positions (an
      order-preserving subsequence), and those positions are exactly the
      ones whose element is accepted. */
  lemma FilterIsOrderedSubsequence<T>(xs: seq<T>, keep: T -> bool)
    ensures var idx, r := KeptIndices(xs, keep), Filter(xs, keep);
      && |idx| == |r|
      && StrictlyIncreasing(idx)
      && (forall k :: 0 <= k < |idx| ==> idx[k] < |xs| && r[k] == xs[idx[k]])
      && (forall j :: 0 <= j < |xs| ==> (j in idx <==> keep(xs[j])))
  {
    KeptIndicesPick(xs, keep);
    KeptIndicesIncreasing(xs, keep);
    KeptIndicesExact(xs, keep);
  }

  lemma {:induction false} KeptIndicesPick<T>(xs: seq<T>, keep: T -> bool)
    ensures var idx, r := KeptIndices(xs, keep), Filter(xs, keep);
      && |idx| == |r|
      && (forall k :: 0 <= k < |idx| ==> idx[k] < |xs| && r[k] == xs[idx[k]])
  {
    if xs != [] {
      KeptIndicesPick(xs[1..], keep);
    }
  }

  lemma {:induction false} KeptIndicesIncreasing<T>(xs: seq<T>, keep: T -> bool)
    ensures StrictlyIncreasing(KeptIndices(xs, keep))
  {
    if xs != [] {
      var tail := KeptIndices(xs[1..], keep);
      KeptIndicesIncreasing(xs[1..], keep);
      var shifted := Shift(tail);
      assert StrictlyIncreasing(shifted) by {
        forall k, l | 0 <= k < l < |shifted| ensures shifted[k] < shifted[l] {
          assert tail[k] < tail[l];
        }
      }
      if keep(xs[0]) {
        var idx := [0] + shifted;
        forall k, l | 0 <= k < l < |idx| ensures idx[k] < idx[l] {
          assert idx[l] == shifted[l - 1] >= 1;
          if k > 0 {
            assert idx[k] == shifted[k - 1];
          }
        }
        assert KeptIndices(xs, keep) == idx;
      } else {
        assert KeptIndices(xs, keep) == shifted;
      }
    }
  }

  lemma {:induction false} KeptIndicesExact<T>(xs: seq<T>, keep: T -> bool)
    ensures forall j :: 0 <= j < |xs| ==> (j in KeptIndices(xs, keep) <==> keep(xs[j]))
  {
    if xs != [] {
      KeptIndicesExact(xs[1..], keep);
      var tail := KeptIndices(xs[1..], keep);
      var shifted := Shift(tail);
      assert forall j :: 1 <= j < |xs| ==> (j in shifted <==> j - 1 in tail) by {
        forall j | 1 <= j < |xs| ensures j in shifted <==> j - 1 in tail {
          if j in shifted {
            var k :| 0 <= k < |shifted| && shifted[k] == j;
            assert tail[k] == j - 1;
          }
          if j - 1 in tail {
            var k :| 0 <= k < |tail| && tail[k] == j - 1;
            assert shifted[k] == j;
          }
        }
      }
      assert 0 !in shifted;
      assert forall j :: 1 <= j < |xs| ==> xs[j] == xs[1..][j - 1];
      if keep(xs[0]) {
        var idx := [0] + shifted;
        assert forall j :: 0 <= j < |xs| ==> (j in idx <==> j == 0 || j in shifted);
      }
    }
  }

  /** `xs.reduce((acc, x) => acc + value(x), acc)`: a left fold. */
  function SumFrom<T>(acc: int, xs: seq<T>, value: T -> int): (r: int)
    ensures r == acc + Total(xs, value)
    decreases |xs|
  {
    if xs == [] then acc else SumFrom(acc + value(xs[0]), xs[1..], value)
  }

  /** Reference total: the sum of the values of the elements. */
  function Total<T>(xs: seq<T>, value: T -> int): int {
    if xs == [] then 0 else value(xs[0]) + Total(xs[1..], value)
  }

  /** The left fold from `acc` adds the reference total to `acc`. */
  lemma {:induction false} SumFromIsTotal<T>(acc: int, xs: seq<T>, value: T -> int)
    ensures SumFrom(acc, xs, value) == acc + Total(xs, value)
    decreases |xs|
  {
    if xs != [] {
      SumFromIsTotal(acc + value(xs[0]), xs[1..], value);
    }
  }

  /** With no negative values the total is at least each single value. */
  lemma {:induction false} TotalAtLeastEach<T>(xs: seq<T>, value: T -> int, x: T)
    requires forall y :: y in xs ==> value(y) >= 0
    requires x in xs
    ensures Total(xs, value) >= value(x) >= 0
  {
    assert forall y :: y in xs[1..] ==> y in xs;
    if x != xs[0] {
      TotalAtLeastEach(xs[1..], value, x);
    }
    TotalNonNegative(xs[1..], value);
  }

  lemma {:induction false} TotalNonNegative<T>(xs: seq<T>, value: T -> int)
    requires forall y :: y in xs ==> value(y) >= 0
    ensures Total(xs, value) >= 0
  {
    if xs != [] {
      assert xs[0] in xs;
      assert forall y :: y in xs[1..] ==> y in xs;
      TotalNonNegative(xs[1..], value);
    }
  }

  /** Values all within `[lo, hi]` give a total within `[n * lo, n * hi]`. */
  lemma {:induction false} TotalBounds<T>(xs: seq<T>, value: T -> int, lo: int, hi: int)
    requires forall y :: y in xs ==> lo <= value(y) <= hi
    ensures |xs| * lo <= Total(xs, value) <= |xs| * hi
  {
    if xs != [] {
      assert xs[0] in xs;
      assert forall y :: y in xs[1..] ==> y in xs;
      TotalBounds(xs[1..], value, lo, hi);
      assert |xs| * lo == lo + (|xs| - 1) * lo;
      assert |xs| * hi == hi + (|xs| - 1) * hi;
    }
  }
}
