/** Finite sums of real-valued terms over an integer range. */
module Sums {

  function Abs(x: real): (r: real)
    ensures r >= 0.0
    ensures r == x || r == -x
  {
    if x < 0.0 then -x else x
  }

  /** f(lo) + f(lo+1) + ... + f(hi-1). */
  function Sum(f: int -> real, lo: int, hi: int): real
    decreases hi - lo
  {
    if hi <= lo then 0.0 else Sum(f, lo, hi - 1) + f(hi - 1)
  }

  lemma {:induction false} SumSplit(f: int -> real, lo: int, mid: int, hi: int)
    requires lo <= mid <= hi
    ensures Sum(f, lo, hi) == Sum(f, lo, mid) + Sum(f, mid, hi)
    decreases hi - mid
  {
    if mid < hi {
      SumSplit(f, lo, mid, hi - 1);
    }
  }

  /** Terms that agree up to a shift of the index have the same sum. */
  lemma {:induction false} SumShift(f: int -> real, lo: int, hi: int, g: int -> real, shift: int)
    requires forall i :: lo <= i < hi ==> f(i) == g(i + shift)
    ensures Sum(f, lo, hi) == Sum(g, lo + shift, hi + shift)
    decreases hi - lo
  {
    if lo < hi {
      SumShift(f, lo, hi - 1, g, shift);
    }
  }

  lemma SumEqual(f: int -> real, g: int -> real, lo: int, hi: int)
    requires forall i :: lo <= i < hi ==> f(i) == g(i)
    ensures Sum(f, lo, hi) == Sum(g, lo, hi)
  {
    SumShift(f, lo, hi, g, 0);
  }

  lemma {:induction false} SumZero(f: int -> real, lo: int, hi: int)
    requires forall i :: lo <= i < hi ==> f(i) == 0.0
    ensures Sum(f, lo, hi) == 0.0
    decreases hi - lo
  {
    if lo < hi {
      SumZero(f, lo, hi - 1);
    }
  }

  /** A term-wise linear combination has the combined sum. */
  lemma {:induction false} SumCombine(f: int -> real, a: real, g: int -> real, b: real, h: int -> real, lo: int,
                                      hi: int)
    requires forall i :: lo <= i < hi ==> h(i) == a * f(i) + b * g(i)
    ensures Sum(h, lo, hi) == a * Sum(f, lo, hi) + b * Sum(g, lo, hi)
    decreases hi - lo
  {
    if lo < hi {
      SumCombine(f, a, g, b, h, lo, hi - 1);
      CombineStep(a, Sum(f, lo, hi - 1), f(hi - 1), b, Sum(g, lo, hi - 1), g(hi - 1));
    }
  }

  lemma CombineStep(a: real, x: real, x': real, b: real, y: real, y': real)
    ensures a * x + b * y + (a * x' + b * y') == a * (x + x') + b * (y + y')
  {
  }

  lemma {:induction false} SumNonneg(f: int -> real, lo: int, hi: int)
    requires forall i :: lo <= i < hi ==> f(i) >= 0.0
    ensures Sum(f, lo, hi) >= 0.0
    decreases hi - lo
  {
    if lo < hi {
      SumNonneg(f, lo, hi - 1);
    }
  }

  /** A sum of non-negative terms is at least each of them. */
  lemma {:induction false} SumAtLeast(f: int -> real, lo: int, hi: int, at: int)
    requires lo <= at < hi
    requires forall i :: lo <= i < hi ==> f(i) >= 0.0
    ensures Sum(f, lo, hi) >= f(at)
    decreases hi - lo
  {
    if at < hi - 1 {
      SumAtLeast(f, lo, hi - 1, at);
    } else {
      SumNonneg(f, lo, hi - 1);
    }
  }

  lemma {:induction false} SumAtMost(f: int -> real, g: int -> real, lo: int, hi: int)
    requires forall i :: lo <= i < hi ==> f(i) <= g(i)
    ensures Sum(f, lo, hi) <= Sum(g, lo, hi)
    decreases hi - lo
  {
    if lo < hi {
      SumAtMost(f, g, lo, hi - 1);
    }
  }

  /** Terms that differ by at most h have sums that differ by at most the sum of h. */
  lemma {:induction false} SumClose(f: int -> real, g: int -> real, h: int -> real, lo: int, hi: int)
    requires forall i :: lo <= i < hi ==> Abs(f(i) - g(i)) <= h(i)
    ensures Abs(Sum(f, lo, hi) - Sum(g, lo, hi)) <= Sum(h, lo, hi)
    decreases hi - lo
  {
    if lo < hi {
      SumClose(f, g, h, lo, hi - 1);
    }
  }

  /** A constant, added up. */
  lemma {:induction false} SumConstant(f: int -> real, c: real, n: nat)
    requires forall i :: 0 <= i < n ==> f(i) == c
    ensures Sum(f, 0, n) == n as real * c
    decreases n
  {
    if n > 0 {
      SumConstant(f, c, n - 1);
      assert (n - 1) as real * c + c == n as real * c;
    }
  }

  /** A 16-term range, cut into its four quarters. */
  lemma SumOfQuarters(f: int -> real, lo: int)
    ensures Sum(f, lo, lo + 16)
         == Sum(f, lo, lo + 4) + Sum(f, lo + 4, lo + 8) + Sum(f, lo + 8, lo + 12) + Sum(f, lo + 12, lo + 16)
  {
    SumSplit(f, lo, lo + 4, lo + 16);
    SumSplit(f, lo + 4, lo + 8, lo + 16);
    SumSplit(f, lo + 8, lo + 12, lo + 16);
  }
}
