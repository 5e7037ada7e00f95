/** The numeric helpers the trading environment borrows from numpy and from
    Python slicing (`np.diff`, `np.mean`, `np.std`, `xs[-n:]`), over exact reals.
    numpy's square root is not modelled: `Std` takes it as a parameter, and the
    lemmas that need its meaning assume `IsSqrt`. */
module Stats {

  /** Sum of the elements, left to right. */
  function Sum(xs: seq<real>): real
  {
    if xs == [] then 0.0 else xs[0] + Sum(xs[1..])
  }

  /** `np.mean`: arithmetic mean of a non-empty vector. */
  function Mean(xs: seq<real>): real
    requires |xs| > 0
  {
    Sum(xs) / (|xs| as real)
  }

  function Square(d: real): real
  {
    d * d
  }

  /** Sum of the squared distances of the elements from `m`. */
  function SumSquaredDeviation(xs: seq<real>, m: real): real
  {
    if xs == [] then 0.0 else Square(xs[0] - m) + SumSquaredDeviation(xs[1..], m)
  }

  /** Population variance (numpy's default `ddof=0`). */
  function PopulationVariance(xs: seq<real>): real
    requires |xs| > 0
  {
    SumSquaredDeviation(xs, Mean(xs)) / (|xs| as real)
  }

  /** What it means for `sqrt` to be the square root on the non-negative reals. */
  ghost predicate IsSqrt(sqrt: real -> real)
  {
    forall x: real :: 0.0 <= x ==> 0.0 <= sqrt(x) && Square(sqrt(x)) == x
  }

  /** `np.std`: population standard deviation, given a square root. */
  function Std(sqrt: real -> real, xs: seq<real>): real
    requires |xs| > 0
  {
    sqrt(PopulationVariance(xs))
  }

  /** All elements are equal. */
  predicate Constant(xs: seq<real>)
  {
    forall i, j :: 0 <= i < |xs| && 0 <= j < |xs| ==> xs[i] == xs[j]
  }

  /** `np.diff`: the differences of consecutive elements. */
  function Diff(xs: seq<real>): (d: seq<real>)
    ensures |d| == if xs == [] then 0 else |xs| - 1
    ensures forall i :: 0 <= i < |d| ==> d[i] == xs[i + 1] - xs[i]
  {
    if |xs| <= 1 then [] else [xs[1] - xs[0]] + Diff(xs[1..])
  }

  /** Python's `xs[-n:]` for a positive `n`: the last `n` elements, or all of
      them when there are fewer. */
  function LastN(xs: seq<real>, n: nat): (w: seq<real>)
    requires 0 < n
    ensures |w| == if |xs| < n then |xs| else n
  {
    if |xs| <= n then xs else xs[|xs| - n..]
  }

  /** The window is the suffix of that length, and it slides by one when an
      element is appended: the new element enters and, once the window is
      full, the oldest one leaves. */
  lemma LastNSlides(xs: seq<real>, x: real, n: nat)
    requires 0 < n
    ensures LastN(xs, n) == xs[|xs| - |LastN(xs, n)|..]
    ensures LastN(xs + [x], n) == (if |xs| < n then xs else LastN(xs, n)[1..]) + [x]
  {
  }

  function Last(xs: seq<real>): real
    requires xs != []
  {
    xs[|xs| - 1]
  }

  /** The differences of a vector add up to its last element minus its first. */
  lemma {:induction false} SumOfDiff(xs: seq<real>)
    requires xs != []
    ensures Sum(Diff(xs)) == Last(xs) - xs[0]
  {
    if |xs| > 1 {
      SumOfDiff(xs[1..]);
      assert Diff(xs) == [xs[1] - xs[0]] + Diff(xs[1..]);
      assert Diff(xs)[1..] == Diff(xs[1..]);
    }
  }

  /** A vector whose elements all equal `c` sums to `|xs| * c`. */
  lemma {:induction false} SumOfConstant(xs: seq<real>, c: real)
    requires forall i :: 0 <= i < |xs| ==> xs[i] == c
    ensures Sum(xs) == (|xs| as real) * c
  {
    if xs != [] {
      SumOfConstant(xs[1..], c);
    }
  }

  /** Sign of a quotient by a positive real. */
  lemma QuotientSign(a: real, b: real)
    requires 0.0 < b
    ensures 0.0 < a / b <==> 0.0 < a
    ensures a / b < 0.0 <==> a < 0.0
  {
  }

  /** The mean of the differences has the sign of the overall move from the
      first element to the last. */
  lemma MeanOfDiffSign(xs: seq<real>)
    requires |xs| > 1
    ensures 0.0 < Mean(Diff(xs)) <==> xs[0] < Last(xs)
    ensures Mean(Diff(xs)) < 0.0 <==> Last(xs) < xs[0]
  {
    SumOfDiff(xs);
    QuotientSign(Sum(Diff(xs)), |Diff(xs)| as real);
  }

  /** A square is never negative, and positive unless its root is zero. */
  lemma SquareSign(d: real)
    ensures 0.0 <= Square(d)
    ensures d != 0.0 ==> 0.0 < Square(d)
  {
    if d > 0.0 {
      calc { 0.0; < d * d; == Square(d); }
    } else if d < 0.0 {
      calc { 0.0; < d * d; == Square(d); }
    } else {
      calc { Square(d); == 0.0 * 0.0; == 0.0; }
    }
  }

  /** Squared deviations are never negative, and they vanish exactly when
      every element sits at `m`. */
  lemma {:induction false} SumSquaredDeviationZero(xs: seq<real>, m: real)
    ensures 0.0 <= SumSquaredDeviation(xs, m)
    ensures SumSquaredDeviation(xs, m) == 0.0 <==> forall i :: 0 <= i < |xs| ==> xs[i] == m
  {
    if xs != [] {
      SumSquaredDeviationZero(xs[1..], m);
      SquareSign(xs[0] - m);
      if SumSquaredDeviation(xs, m) == 0.0 {
        forall i | 0 <= i < |xs| ensures xs[i] == m {
          if i > 0 { assert xs[i] == xs[1..][i - 1]; }
        }
      }
    }
  }

  /** A constant vector's mean is its common element. */
  lemma MeanOfConstant(xs: seq<real>)
    requires |xs| > 0 && Constant(xs)
    ensures Mean(xs) == xs[0]
  {
    var n := |xs| as real;
    SumOfConstant(xs, xs[0]);
    calc {
      Mean(xs);
      == Sum(xs) / n;
      == (n * xs[0]) / n;
      == xs[0];
    }
  }

  /** The population variance is non-negative and is zero exactly for a
      constant vector. */
  lemma VarianceZeroIffConstant(xs: seq<real>)
    requires |xs| > 0
    ensures 0.0 <= PopulationVariance(xs)
    ensures PopulationVariance(xs) == 0.0 <==> Constant(xs)
  {
    var m := Mean(xs);
    SumSquaredDeviationZero(xs, m);
    if Constant(xs) {
      MeanOfConstant(xs);
    } else {
      var i, j :| 0 <= i < |xs| && 0 <= j < |xs| && xs[i] != xs[j];
      assert xs[i] != m || xs[j] != m;
    }
  }

  /** Given a true square root, the standard deviation is non-negative and is
      positive exactly when the vector is not constant. */
  lemma StdPositiveIffNotConstant(sqrt: real -> real, xs: seq<real>)
    requires IsSqrt(sqrt)
    requires |xs| > 0
    ensures 0.0 <= Std(sqrt, xs) && Square(Std(sqrt, xs)) == PopulationVariance(xs)
    ensures 0.0 < Std(sqrt, xs) <==> !Constant(xs)
  {
    var v := PopulationVariance(xs);
    VarianceZeroIffConstant(xs);
    SquareSign(sqrt(v));
  }
}
