/** The numpy and builtin statistics the scripts use on series of readings: `np.median`,
    `np.average`, `max` and `min`. Floats are modelled as exact reals. */
module Stats {

  /** Sum of a series, first element first. */
  function Sum(s: seq<real>): real
  {
    if s == [] then 0.0 else s[0] + Sum(s[1..])
  }

  /** `np.average` of a non-empty series: the sum divided by the count. */
  function Mean(s: seq<real>): real
    requires |s| > 0
  {
    Sum(s) / (|s| as real)
  }

  /** Builtin `max` of a non-empty list. */
  function Max(s: seq<real>): (r: real)
    requires |s| > 0
    ensures r in s
    ensures forall i :: 0 <= i < |s| ==> s[i] <= r
  {
    if |s| == 1 then s[0]
    else
      var m := Max(s[1..]);
      if s[0] >= m then s[0] else m
  }

  /** Builtin `min` of a non-empty list. */
  function Min(s: seq<real>): (r: real)
    requires |s| > 0
    ensures r in s
    ensures forall i :: 0 <= i < |s| ==> r <= s[i]
  {
    if |s| == 1 then s[0]
    else
      var m := Min(s[1..]);
      if s[0] <= m then s[0] else m
  }

  /** The maximum reported by `print_stats` is never below the minimum. */
  lemma MinAtMostMax(s: seq<real>)
    requires |s| > 0
    ensures Min(s) <= Max(s)
  {
    assert Min(s) <= s[0] <= Max(s);
  }

  predicate Sorted(s: seq<real>)
  {
    forall i, j :: 0 <= i < j < |s| ==> s[i] <= s[j]
  }

  /** Inserts `x` in front of the first element of `s` that is not smaller. */
  function Insert(x: real, s: seq<real>): seq<real>
  {
    if s == [] then [x]
    else if x <= s[0] then [x] + s
    else [s[0]] + Insert(x, s[1..])
  }

  /** Inserting into a sorted series keeps it sorted and adds exactly `x`. */
  lemma {:induction false} InsertSorted(x: real, s: seq<real>)
    requires Sorted(s)
    ensures |Insert(x, s)| == |s| + 1
    ensures Sorted(Insert(x, s))
    ensures multiset(Insert(x, s)) == multiset(s) + multiset{x}
  {
    if s == [] {
    } else if x <= s[0] {
      SortedCons(x, s);
    } else {
      var t := Insert(x, s[1..]);
      InsertSorted(x, s[1..]);
      assert s == [s[0]] + s[1..];
      forall i | 0 <= i < |s[1..]|
        ensures s[0] <= s[1..][i]
      {
        assert s[1..][i] == s[i + 1];
      }
      InsertLowerBound(x, s[1..], s[0]);
      SortedCons(s[0], t);
    }
  }

  /** A bound below `x` and below every element of `s` is below every element after the
      insertion. */
  lemma {:induction false} InsertLowerBound(x: real, s: seq<real>, y: real)
    requires y <= x && forall i :: 0 <= i < |s| ==> y <= s[i]
    ensures forall i :: 0 <= i < |Insert(x, s)| ==> y <= Insert(x, s)[i]
  {
    if s != [] && x > s[0] {
      forall i | 0 <= i < |s[1..]|
        ensures y <= s[1..][i]
      {
        assert s[1..][i] == s[i + 1];
      }
      InsertLowerBound(x, s[1..], y);
    }
  }

  /** A sorted series stays sorted with a value in front that is at most each element. */
  lemma SortedCons(y: real, t: seq<real>)
    requires Sorted(t)
    requires forall i :: 0 <= i < |t| ==> y <= t[i]
    ensures Sorted([y] + t)
  {
    var u := [y] + t;
    forall i, j | 0 <= i < j < |u|
      ensures u[i] <= u[j]
    {
      if i > 0 {
        assert u[i] == t[i - 1] && u[j] == t[j - 1];
      } else {
        assert u[j] == t[j - 1];
      }
    }
  }

  /** Insertion sort. */
  function Sort(s: seq<real>): seq<real>
  {
    if s == [] then [] else Insert(s[0], Sort(s[1..]))
  }

  /** The sort returns the sorted permutation of the series. */
  lemma {:induction false} SortSorted(s: seq<real>)
    ensures |Sort(s)| == |s|
    ensures Sorted(Sort(s))
    ensures multiset(Sort(s)) == multiset(s)
  {
    if s != [] {
      SortSorted(s[1..]);
      InsertSorted(s[0], Sort(s[1..]));
      assert s == [s[0]] + s[1..];
    }
  }

  /** Median of a series that is already sorted, numpy's convention: the middle element for
      an odd count, the mean of the two middle elements for an even count. */
  function MedianOfSorted(t: seq<real>): real
    requires |t| > 0
  {
    if |t| % 2 == 1 then t[|t| / 2] else (t[|t| / 2 - 1] + t[|t| / 2]) / 2.0
  }

  /** `np.median` of a non-empty series: the median of its sorted permutation. */
  function Median(s: seq<real>): real
    requires |s| > 0
  {
    MedianOfSorted(Sort(s))
  }

  /** A sorted series is determined by its multiset of elements. */
  lemma {:induction false} SortedUnique(a: seq<real>, b: seq<real>)
    requires Sorted(a) && Sorted(b)
    requires multiset(a) == multiset(b)
    ensures a == b
    decreases |a|
  {
    assert |b| == |multiset(b)| == |multiset(a)| == |a|;
    if a != [] {
      SortedHeads(a, b);
      TailMultiset(a, b);
      SortedTail(a);
      SortedTail(b);
      SortedUnique(a[1..], b[1..]);
      assert a == [a[0]] + a[1..];
      assert b == [b[0]] + b[1..];
    }
  }

  /** Two sorted permutations of each other start with the same (smallest) value. */
  lemma SortedHeads(a: seq<real>, b: seq<real>)
    requires Sorted(a) && Sorted(b) && |a| > 0 && |b| > 0
    requires multiset(a) == multiset(b)
    ensures a[0] == b[0]
  {
    assert a[0] in multiset(b);
    var j :| 0 <= j < |b| && b[j] == a[0];
    assert b[0] in multiset(a);
    var k :| 0 <= k < |a| && a[k] == b[0];
  }

  lemma TailMultiset(a: seq<real>, b: seq<real>)
    requires |a| > 0 && |b| > 0 && a[0] == b[0]
    requires multiset(a) == multiset(b)
    ensures multiset(a[1..]) == multiset(b[1..])
  {
    assert a == [a[0]] + a[1..];
    assert b == [b[0]] + b[1..];
    assert multiset(a[1..]) == multiset(a) - multiset{a[0]};
    assert multiset(b[1..]) == multiset(b) - multiset{b[0]};
  }

  lemma SortedTail(a: seq<real>)
    requires Sorted(a) && |a| > 0
    ensures Sorted(a[1..])
  {
  }

  /** The median may be read off any sorted permutation of the series. */
  lemma MedianOfPermutation(s: seq<real>, t: seq<real>)
    requires |s| > 0
    requires Sorted(t) && multiset(t) == multiset(s)
    ensures |t| == |s|
    ensures Median(s) == MedianOfSorted(t)
  {
    assert |t| == |multiset(t)| == |multiset(s)| == |s|;
    SortSorted(s);
    SortedUnique(Sort(s), t);
  }

  /** Every element of a series lies between its minimum and maximum (via multiset
      membership, for elements of a permutation). */
  lemma PermutationWithinBounds(s: seq<real>, t: seq<real>, i: int)
    requires |s| > 0 && multiset(t) == multiset(s) && 0 <= i < |t|
    ensures Min(s) <= t[i] <= Max(s)
  {
    assert t[i] in multiset(s);
  }

  /** The plotted median lies between the reported minimum and maximum. */
  lemma MedianWithinBounds(s: seq<real>)
    requires |s| > 0
    ensures Min(s) <= Median(s) <= Max(s)
  {
    var t := Sort(s);
    SortSorted(s);
    assert |t| == |multiset(t)| == |s|;
    PermutationWithinBounds(s, t, |t| / 2);
    if |t| % 2 == 0 {
      PermutationWithinBounds(s, t, |t| / 2 - 1);
    }
  }

  /** |s| times the minimum bounds the sum from below, |s| times the maximum from above. */
  lemma {:induction false} SumBounds(s: seq<real>, lo: real, hi: real)
    requires forall i :: 0 <= i < |s| ==> lo <= s[i] <= hi
    ensures (|s| as real) * lo <= Sum(s) <= (|s| as real) * hi
  {
    if s != [] {
      SumBounds(s[1..], lo, hi);
    }
  }

  /** `np.average` lies within any bounds that hold for every element. */
  lemma MeanBounds(s: seq<real>, lo: real, hi: real)
    requires |s| > 0
    requires forall i :: 0 <= i < |s| ==> lo <= s[i] <= hi
    ensures lo <= Mean(s) <= hi
  {
    SumBounds(s, lo, hi);
    QuotientBounds(Sum(s), |s| as real, lo, hi);
  }

  /** `np.average` lies between the minimum and the maximum. */
  lemma MeanWithinBounds(s: seq<real>)
    requires |s| > 0
    ensures Min(s) <= Mean(s) <= Max(s)
  {
    MeanBounds(s, Min(s), Max(s));
  }

  lemma QuotientBounds(x: real, n: real, lo: real, hi: real)
    requires n > 0.0 && n * lo <= x <= n * hi
    ensures lo <= x / n <= hi
  {
    assert x / n - lo == (x - n * lo) / n;
    assert hi - x / n == (n * hi - x) / n;
  }

  /** The sum of a concatenation is the sum of the parts. */
  lemma {:induction false} SumAppend(s: seq<real>, t: seq<real>)
    ensures Sum(s + t) == Sum(s) + Sum(t)
  {
    if s != [] {
      assert (s + t)[1..] == s[1..] + t;
      SumAppend(s[1..], t);
    } else {
      assert s + t == t;
    }
  }

  /** Element-wise difference of two series of equal length (numpy `a - b`). */
  function Difference(a: seq<real>, b: seq<real>): seq<real>
    requires |a| == |b|
  {
    seq(|a|, i requires 0 <= i < |a| => a[i] - b[i])
  }

  /** The differences sum to the difference of the sums. */
  lemma {:induction false} SumDifference(a: seq<real>, b: seq<real>)
    requires |a| == |b|
    ensures Sum(Difference(a, b)) == Sum(a) - Sum(b)
  {
    if a != [] {
      assert Difference(a, b)[1..] == Difference(a[1..], b[1..]);
      SumDifference(a[1..], b[1..]);
    }
  }

  /** The average difference is the difference of the averages. */
  lemma MeanDifference(a: seq<real>, b: seq<real>)
    requires |a| == |b| > 0
    ensures Mean(Difference(a, b)) == Mean(a) - Mean(b)
  {
    SumDifference(a, b);
    var n := |a| as real;
    assert (Sum(a) - Sum(b)) / n == Sum(a) / n - Sum(b) / n;
  }

  /** The series of constant value `x`. */
  function Repeat(x: real, n: nat): (r: seq<real>)
  {
    seq(n, _ => x)
  }

  /** The sum of `n` copies of `x` is `n * x`. */
  lemma {:induction false} SumRepeat(x: real, n: nat)
    ensures Sum(Repeat(x, n)) == (n as real) * x
  {
    if n > 0 {
      assert Repeat(x, n)[1..] == Repeat(x, n - 1);
      SumRepeat(x, n - 1);
    }
  }

  /** A series whose elements all equal `x` has mean `x`. */
  lemma MeanOfConstant(s: seq<real>, x: real)
    requires |s| > 0
    requires forall i :: 0 <= i < |s| ==> s[i] == x
    ensures Mean(s) == x
  {
    assert s == Repeat(x, |s|);
    SumRepeat(x, |s|);
  }

  /** A series whose elements all equal `x` has median `x`. */
  lemma MedianOfConstant(s: seq<real>, x: real)
    requires |s| > 0
    requires forall i :: 0 <= i < |s| ==> s[i] == x
    ensures Median(s) == x
  {
    var t := Sort(s);
    SortSorted(s);
    assert |t| == |multiset(t)| == |s|;
    forall i | 0 <= i < |t| ensures t[i] == x {
      assert t[i] in multiset(s);
    }
  }

  /** Every element multiplied by `c` (Python `map(lambda x: c*x, s)`). */
  function Scale(c: real, s: seq<real>): seq<real>
  {
    seq(|s|, i requires 0 <= i < |s| => c * s[i])
  }

  lemma ScaleConcat(c: real, a: seq<real>, b: seq<real>)
    ensures Scale(c, a + b) == Scale(c, a) + Scale(c, b)
  {
    var l, r := Scale(c, a + b), Scale(c, a) + Scale(c, b);
    assert |l| == |r|;
    forall i | 0 <= i < |l| ensures l[i] == r[i] {
      if i < |a| {
        assert (a + b)[i] == a[i];
      } else {
        assert (a + b)[i] == b[i - |a|];
      }
    }
  }

  /** Scaling two permutations of one another gives two permutations of one another. */
  lemma {:induction false} ScalePermutation(c: real, a: seq<real>, b: seq<real>)
    requires multiset(a) == multiset(b)
    ensures multiset(Scale(c, a)) == multiset(Scale(c, b))
    decreases |a|
  {
    if a == [] {
      assert |multiset(b)| == 0;
      assert b == [];
    } else {
      var x := a[0];
      assert x in multiset(b);
      var j :| 0 <= j < |b| && b[j] == x;
      var rest := b[..j] + b[j + 1..];
      assert b == b[..j] + [x] + b[j + 1..];
      assert a == [x] + a[1..];
      assert multiset(a[1..]) == multiset(a) - multiset{x};
      assert multiset(b) == multiset(b[..j]) + multiset{x} + multiset(b[j + 1..]);
      assert multiset(rest) == multiset(b[..j]) + multiset(b[j + 1..]);
      assert multiset(rest) == multiset(b) - multiset{x};
      assert multiset(a[1..]) == multiset(rest);
      ScalePermutation(c, a[1..], rest);
      ScaleConcat(c, [x], a[1..]);
      ScaleConcat(c, b[..j], [x]);
      ScaleConcat(c, b[..j] + [x], b[j + 1..]);
      ScaleConcat(c, b[..j], b[j + 1..]);
    }
  }

  /** The series in reverse order. */
  function Reverse(s: seq<real>): seq<real>
  {
    seq(|s|, i requires 0 <= i < |s| => s[|s| - 1 - i])
  }

  lemma {:induction false} ReversePermutation(s: seq<real>)
    ensures multiset(Reverse(s)) == multiset(s)
    decreases |s|
  {
    if s != [] {
      ReversePermutation(s[1..]);
      assert Reverse(s) == Reverse(s[1..]) + [s[0]];
      assert s == [s[0]] + s[1..];
    }
  }

  /** Scaling a sorted series by a non-negative factor keeps it sorted. */
  lemma ScaleSortedNonNegative(c: real, t: seq<real>)
    requires Sorted(t) && c >= 0.0
    ensures Sorted(Scale(c, t))
  {
    var u := Scale(c, t);
    forall i, j | 0 <= i < j < |u| ensures u[i] <= u[j] {
      assert t[i] <= t[j];
      assert c * t[j] - c * t[i] == c * (t[j] - t[i]);
    }
  }

  /** Scaling a sorted series by a negative factor and reversing it keeps it sorted. */
  lemma ScaleSortedNegative(c: real, t: seq<real>)
    requires Sorted(t) && c < 0.0
    ensures Sorted(Reverse(Scale(c, t)))
  {
    var n := |t|;
    var v := Reverse(Scale(c, t));
    forall i, j | 0 <= i < j < n ensures v[i] <= v[j] {
      assert t[n - 1 - j] <= t[n - 1 - i];
      assert v[j] - v[i] == c * (t[n - 1 - j] - t[n - 1 - i]);
    }
  }

  lemma MedianOfSortedScale(c: real, t: seq<real>, m: real)
    requires |t| > 0 && m == MedianOfSorted(t)
    ensures MedianOfSorted(Scale(c, t)) == c * m
  {
    var n := |t|;
    if n % 2 == 0 {
      assert (c * t[n / 2 - 1] + c * t[n / 2]) / 2.0 == c * ((t[n / 2 - 1] + t[n / 2]) / 2.0);
    }
  }

  lemma MedianOfSortedReverse(u: seq<real>)
    requires |u| > 0
    ensures MedianOfSorted(Reverse(u)) == MedianOfSorted(u)
  {
    var n := |u|;
    if n % 2 == 1 {
      assert n - 1 - n / 2 == n / 2;
    }
  }

  /** The median of a series scaled by a non-negative factor. */
  lemma MedianScaleNonNegative(c: real, s: seq<real>)
    requires |s| > 0 && c >= 0.0
    ensures Median(Scale(c, s)) == MedianOfSorted(Scale(c, Sort(s)))
  {
    var t := Sort(s);
    SortSorted(s);
    assert |t| == |multiset(t)| == |s|;
    ScalePermutation(c, t, s);
    ScaleSortedNonNegative(c, t);
    MedianOfPermutation(Scale(c, s), Scale(c, t));
  }

  /** The median of a series scaled by a negative factor. */
  lemma MedianScaleNegative(c: real, s: seq<real>)
    requires |s| > 0 && c < 0.0
    ensures Median(Scale(c, s)) == MedianOfSorted(Reverse(Scale(c, Sort(s))))
  {
    var t := Sort(s);
    SortSorted(s);
    assert |t| == |multiset(t)| == |s|;
    var u := Scale(c, t);
    ScalePermutation(c, t, s);
    ScaleSortedNegative(c, t);
    ReversePermutation(u);
    MedianOfPermutation(Scale(c, s), Reverse(u));
  }

  /** Whatever the sign of `c`, the median of `c * s` is the median of `c` times the sorted
      permutation of `s`. */
  lemma MedianScaleSorted(c: real, s: seq<real>)
    requires |s| > 0
    ensures Median(Scale(c, s)) == MedianOfSorted(Scale(c, Sort(s)))
  {
    if c >= 0.0 {
      MedianScaleNonNegative(c, s);
    } else {
      MedianScaleNegative(c, s);
      MedianOfSortedReverse(Scale(c, Sort(s)));
    }
  }

  lemma {:induction false} MedianOfScaledSortedIsScaled(c: real, s: seq<real>)
    requires |s| > 0
    ensures MedianOfSorted(Scale(c, Sort(s))) == c * Median(s)
  {
    var t := Sort(s);
    var m := Median(s);
    SortLength(s);
    assert m == MedianOfSorted(t);
    MedianOfSortedScale(c, t, m);
  }

  lemma SortLength(s: seq<real>)
    ensures |Sort(s)| == |s|
  {
    SortSorted(s);
  }

  /** Median(c * s) == c * Median(s), for a factor of either sign. */
  lemma MedianScale(c: real, s: seq<real>)
    requires |s| > 0
    ensures Median(Scale(c, s)) == c * Median(s)
  {
    MedianScaleSorted(c, s);
    MedianOfScaledSortedIsScaled(c, s);
  }
}
