/** Sums of an integer column over the rows of a table. */
module Sums {

  /** The column f summed over all rows of s. */
  function SumBy<T>(s: seq<T>, f: T -> int): int
  {
    if |s| == 0 then 0 else SumBy(s[..|s| - 1], f) + f(s[|s| - 1])
  }

  lemma SumAppend<T>(s: seq<T>, x: T, f: T -> int)
    ensures SumBy(s + [x], f) == SumBy(s, f) + f(x)
  {
    assert (s + [x])[..|s|] == s;
  }

  lemma SumAppendTwo<T>(s: seq<T>, x: T, y: T, f: T -> int)
    ensures SumBy(s + [x, y], f) == SumBy(s, f) + f(x) + f(y)
  {
    assert s + [x, y] == (s + [x]) + [y];
    SumAppend(s + [x], y, f);
    SumAppend(s, x, f);
  }

  lemma {:induction false} SumConcat<T>(s: seq<T>, t: seq<T>, f: T -> int)
    ensures SumBy(s + t, f) == SumBy(s, f) + SumBy(t, f)
  {
    if |t| == 0 {
      assert s + t == s;
    } else {
      var front := t[..|t| - 1];
      SumConcat(s, front, f);
      assert (s + t)[..|s + t| - 1] == s + front;
    }
  }

  lemma {:induction false} SumUpdate<T>(s: seq<T>, i: nat, x: T, f: T -> int)
    requires i < |s|
    ensures SumBy(s[i := x], f) == SumBy(s, f) - f(s[i]) + f(x)
  {
    var n := |s| - 1;
    if i < n {
      SumUpdate(s[..n], i, x, f);
      assert s[i := x][..n] == s[..n][i := x];
    } else {
      assert s[i := x][..n] == s[..n];
    }
  }

  /** Two tables whose columns agree row by row have the same sum. */
  lemma {:induction false} SumCongruent<T>(s: seq<T>, t: seq<T>, f: T -> int)
    requires |s| == |t|
    requires forall i | 0 <= i < |s| :: f(s[i]) == f(t[i])
    ensures SumBy(s, f) == SumBy(t, f)
  {
    if |s| > 0 {
      SumCongruent(s[..|s| - 1], t[..|t| - 1], f);
    }
  }

  /** A column that is nowhere above another sums to no more than the other. */
  lemma {:induction false} SumAtMost<T>(s: seq<T>, f: T -> int, g: T -> int)
    requires forall i | 0 <= i < |s| :: f(s[i]) <= g(s[i])
    ensures SumBy(s, f) <= SumBy(s, g)
  {
    if |s| > 0 {
      SumAtMost(s[..|s| - 1], f, g);
    }
  }

  /** Two columns that agree on every row have the same sum. */
  lemma SumSame<T>(s: seq<T>, f: T -> int, g: T -> int)
    requires forall i | 0 <= i < |s| :: f(s[i]) == g(s[i])
    ensures SumBy(s, f) == SumBy(s, g)
  {
    SumAtMost(s, f, g);
    SumAtMost(s, g, f);
  }

  /** Linearity: a column that is row by row the difference of two others. */
  lemma {:induction false} SumDifference<T>(s: seq<T>, f: T -> int, g: T -> int, h: T -> int)
    requires forall i | 0 <= i < |s| :: h(s[i]) == f(s[i]) - g(s[i])
    ensures SumBy(s, h) == SumBy(s, f) - SumBy(s, g)
  {
    if |s| > 0 {
      SumDifference(s[..|s| - 1], f, g, h);
    }
  }

  lemma {:induction false} SumZero<T>(s: seq<T>, f: T -> int)
    requires forall i | 0 <= i < |s| :: f(s[i]) == 0
    ensures SumBy(s, f) == 0
  {
    if |s| > 0 {
      SumZero(s[..|s| - 1], f);
    }
  }

  /** Reordering the rows does not change the sum. */
  lemma {:induction false} SumPermutation<T>(s: seq<T>, t: seq<T>, f: T -> int)
    requires multiset(s) == multiset(t)
    ensures SumBy(s, f) == SumBy(t, f)
  {
    if |s| == 0 {
      assert |multiset(t)| == 0;
    } else {
      var n := |s| - 1;
      var x := s[n];
      assert x in multiset(t);
      var j :| 0 <= j < |t| && t[j] == x;
      assert s == s[..n] + [x];
      assert t == t[..j] + [x] + t[j + 1..];
      calc {
        multiset(s[..n]);
        multiset(s[..n] + [x]) - multiset{x};
        multiset(t[..j] + [x] + t[j + 1..]) - multiset{x};
        multiset(t[..j]) + multiset(t[j + 1..]);
        multiset(t[..j] + t[j + 1..]);
      }
      SumPermutation(s[..n], t[..j] + t[j + 1..], f);
      SumConcat(t[..j] + [x], t[j + 1..], f);
      SumAppend(t[..j], x, f);
      SumConcat(t[..j], t[j + 1..], f);
    }
  }
}
