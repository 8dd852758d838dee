/**
 * Sums over hourly series. The dashboard adds up pandas series with `.sum()`
 * and Python lists with `sum`; over the reals both are this one function.
 */
module Series {

  /** The sum of a series, first element first. */
  function Sum(s: seq<real>): real
  {
    if |s| == 0 then 0.0 else s[0] + Sum(s[1..])
  }

  /** Appending one value adds it to the sum (the left-to-right reading of `sum`). */
  lemma {:induction false} SumAppend(s: seq<real>, x: real)
    ensures Sum(s + [x]) == Sum(s) + x
  {
    if |s| == 0 {
      assert s + [x] == [x];
    } else {
      assert (s + [x])[1..] == s[1..] + [x];
      SumAppend(s[1..], x);
    }
  }

  /** The sum of two consecutive series is the sum of their sums. */
  lemma {:induction false} SumConcat(a: seq<real>, b: seq<real>)
    ensures Sum(a + b) == Sum(a) + Sum(b)
  {
    if |a| > 0 {
      assert (a + b)[1..] == a[1..] + b;
      SumConcat(a[1..], b);
    } else {
      assert a + b == b;
    }
  }

  /** A sum of non-negative terms, each at most the matching term of a second series, is bounded by its sum. */
  lemma {:induction false} SumMonotone(a: seq<real>, b: seq<real>)
    requires |a| == |b|
    requires forall i :: 0 <= i < |a| ==> a[i] <= b[i]
    ensures Sum(a) <= Sum(b)
  {
    if |a| > 0 {
      SumMonotone(a[1..], b[1..]);
    }
  }

  /** Every term below `c` bounds the sum by `|s| * c`. */
  lemma {:induction false} SumAtMostCount(s: seq<real>, c: real)
    requires forall i :: 0 <= i < |s| ==> s[i] <= c
    ensures Sum(s) <= |s| as real * c
  {
    if |s| > 0 {
      SumAtMostCount(s[1..], c);
    }
  }

  /** A series of non-negative terms has a non-negative sum. */
  lemma {:induction false} SumNonNegative(s: seq<real>)
    requires forall i :: 0 <= i < |s| ==> 0.0 <= s[i]
    ensures 0.0 <= Sum(s)
  {
    if |s| > 0 {
      SumNonNegative(s[1..]);
    }
  }

  /** The series `s` with every term multiplied by `k`. */
  function Scale(s: seq<real>, k: real): (r: seq<real>)
    ensures |r| == |s|
  {
    seq(|s|, i requires 0 <= i < |s| => s[i] * k)
  }

  /** Scaling every term scales the sum: a constant factor can be taken out of `.sum()`. */
  lemma {:induction false} SumScale(s: seq<real>, k: real)
    ensures Sum(Scale(s, k)) == Sum(s) * k
  {
    if |s| > 0 {
      var t := Scale(s, k);
      var rest := Scale(s[1..], k);
      forall i | 0 <= i < |rest|
        ensures t[1..][i] == rest[i]
      {
        assert t[1..][i] == t[i + 1];
      }
      assert t[1..] == rest;
      SumScale(s[1..], k);
      Distribute(s[0], Sum(s[1..]), k);
    }
  }

  lemma Distribute(a: real, b: real, k: real)
    ensures a * k + b * k == (a + b) * k
  {
  }

  /** The term-by-term sum of two series of equal length. */
  function Add(a: seq<real>, b: seq<real>): (r: seq<real>)
    requires |a| == |b|
    ensures |r| == |a|
  {
    seq(|a|, i requires 0 <= i < |a| => a[i] + b[i])
  }

  /** The sum of a term-by-term sum is the sum of the sums. */
  lemma {:induction false} SumAdd(a: seq<real>, b: seq<real>)
    requires |a| == |b|
    ensures Sum(Add(a, b)) == Sum(a) + Sum(b)
  {
    if |a| > 0 {
      assert Add(a, b)[1..] == Add(a[1..], b[1..]);
      SumAdd(a[1..], b[1..]);
    }
  }

  /** The series of length `n` that holds `v` at position `k` and zero elsewhere. */
  function Single(n: nat, k: int, v: real): (r: seq<real>)
    ensures |r| == n
  {
    seq(n, i requires 0 <= i < n => if i == k then v else 0.0)
  }

  /** A series that is zero except at one position sums to the value at that position (or to zero if the position lies outside). */
  lemma {:induction false} SumSingle(n: nat, k: int, v: real)
    ensures Sum(Single(n, k, v)) == if 0 <= k < n then v else 0.0
  {
    if n > 0 {
      assert Single(n, k, v)[1..] == Single(n - 1, k - 1, v);
      SumSingle(n - 1, k - 1, v);
    }
  }
}
