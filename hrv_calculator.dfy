/** The three time-domain HRV estimators over an ordered list of R-R intervals in
    milliseconds. Order matters: RMSSD and PNN50 look at successive differences.
    RMSSD and SDNN are square roots in the source; since Dafny's reals have no square
    root, the estimators below return the quantity under the root (RMSSD squared and
    SDNN squared). PNN50 involves no root and is modelled exactly. */
module HRVCalculator {

  /** Successive differences strictly above this many milliseconds count towards PNN50. */
  const Nn50ThresholdMillis: real := 50.0

  function Abs(x: real): (r: real)
    ensures r >= 0.0 && (r == x || r == -x)
  {
    if x < 0.0 then -x else x
  }

  function Sum(s: seq<real>): real
  {
    if s == [] then 0.0 else s[0] + Sum(s[1..])
  }

  /** Kotlin's `average()`; every caller here passes a non-empty list. */
  function Mean(s: seq<real>): real
    requires |s| > 0
  {
    Sum(s) / (|s| as real)
  }

  /** `zipWithNext { a, b -> b - a }`: the successive differences. */
  function SuccessiveDiffs(rr: seq<real>): (d: seq<real>)
    ensures |d| == if |rr| < 2 then 0 else |rr| - 1
    ensures forall i :: 0 <= i < |d| ==> d[i] == rr[i + 1] - rr[i]
  {
    if |rr| < 2 then [] else [rr[1] - rr[0]] + SuccessiveDiffs(rr[1..])
  }

  /** `zipWithNext { a, b -> abs(b - a) }`: the absolute successive differences. */
  function AbsSuccessiveDiffs(rr: seq<real>): (d: seq<real>)
    ensures |d| == if |rr| < 2 then 0 else |rr| - 1
    ensures forall i :: 0 <= i < |d| ==> d[i] == Abs(rr[i + 1] - rr[i])
  {
    if |rr| < 2 then [] else [Abs(rr[1] - rr[0])] + AbsSuccessiveDiffs(rr[1..])
  }

  /** `it * it` */
  function Square(x: real): (r: real)
    ensures r >= 0.0
  {
    x * x
  }

  /** `map { it * it }` */
  function Squares(s: seq<real>): (r: seq<real>)
    ensures |r| == |s|
    ensures forall i :: 0 <= i < |s| ==> r[i] == Square(s[i])
  {
    if s == [] then [] else [Square(s[0])] + Squares(s[1..])
  }

  /** `map { (it - mean) * (it - mean) }` */
  function SquaredDeviations(s: seq<real>, mean: real): (r: seq<real>)
    ensures |r| == |s|
    ensures forall i :: 0 <= i < |s| ==> r[i] == Square(s[i] - mean)
  {
    if s == [] then [] else [Square(s[0] - mean)] + SquaredDeviations(s[1..], mean)
  }

  /** `count { it > 50 }` */
  function CountAboveThreshold(s: seq<real>): (c: nat)
    ensures c <= |s|
  {
    if s == [] then 0
    else (if s[0] > Nn50ThresholdMillis then 1 else 0) + CountAboveThreshold(s[1..])
  }

  /** calculateRMSSD without its final square root: the mean of the squared
      successive differences, or 0 for fewer than two intervals. */
  function RmssdSquared(rr: seq<real>): (r: real)
    ensures |rr| < 2 ==> r == 0.0
    ensures |rr| >= 2 ==> r * ((|rr| - 1) as real) == Sum(Squares(SuccessiveDiffs(rr)))
    ensures r >= 0.0
  {
    if |rr| < 2 then 0.0
    else
      var squared := Squares(SuccessiveDiffs(rr));
      SumNonNegative(squared);
      DivMulCancel(Sum(squared), (|rr| - 1) as real);
      Mean(squared)
  }

  /** calculateSDNN without its final square root: the population variance (divided
      by n, not n - 1), or 0 for an empty list. */
  function SdnnSquared(rr: seq<real>): (r: real)
    ensures |rr| == 0 ==> r == 0.0
    ensures r >= 0.0
  {
    if |rr| == 0 then 0.0
    else
      var deviations := SquaredDeviations(rr, Mean(rr));
      SumNonNegative(deviations);
      Mean(deviations)
  }

  /** `(count.toDouble() / total) * 100`: the share of count in total, in percent. */
  function Percentage(count: nat, total: nat): (r: real)
    requires 0 < total
    requires count <= total
    ensures 0.0 <= r <= 100.0
    ensures r == 0.0 <==> count == 0
    ensures r == 100.0 <==> count == total
    ensures r * (total as real) == 100.0 * (count as real)
  {
    var c, n := count as real, total as real;
    PercentageBounds(c, n);
    (c / n) * 100.0
  }

  /** calculatePNN50: the percentage of successive absolute differences strictly
      above 50 ms, or 0 for fewer than two intervals. */
  function Pnn50(rr: seq<real>): (r: real)
    ensures |rr| < 2 ==> r == 0.0
    ensures |rr| >= 2 ==>
      r * ((|rr| - 1) as real) == 100.0 * (CountAboveThreshold(AbsSuccessiveDiffs(rr)) as real)
    ensures 0.0 <= r <= 100.0
  {
    if |rr| < 2 then 0.0
    else
      var diffs := AbsSuccessiveDiffs(rr);
      Percentage(CountAboveThreshold(diffs), |diffs|)
  }

  // ---------------------------------------------------------------------------
  // Real arithmetic used by the estimators, stated over plain variables

  lemma DivNonNegative(c: real, n: real)
    requires n > 0.0 && c >= 0.0
    ensures c / n >= 0.0
  {
  }

  lemma DivAtMostOne(c: real, n: real)
    requires n > 0.0 && c <= n
    ensures c / n <= 1.0
  {
  }

  lemma DivMulCancel(c: real, n: real)
    requires n > 0.0
    ensures (c / n) * n == c
  {
  }

  lemma DivZeroIff(c: real, n: real)
    requires n > 0.0
    ensures c / n == 0.0 <==> c == 0.0
  {
    DivMulCancel(c, n);
  }

  lemma DivOneIff(c: real, n: real)
    requires n > 0.0
    ensures c / n == 1.0 <==> c == n
  {
    DivMulCancel(c, n);
  }

  lemma PercentageBounds(c: real, n: real)
    requires 0.0 <= c <= n && 0.0 < n
    ensures 0.0 <= (c / n) * 100.0 <= 100.0
    ensures (c / n) * 100.0 == 0.0 <==> c == 0.0
    ensures (c / n) * 100.0 == 100.0 <==> c == n
    ensures (c / n) * 100.0 * n == 100.0 * c
  {
    DivNonNegative(c, n);
    DivAtMostOne(c, n);
    DivZeroIff(c, n);
    DivOneIff(c, n);
    DivMulCancel(c, n);
  }

  lemma PositiveSquareNonZero(x: real)
    requires x > 0.0
    ensures Square(x) != 0.0
  {
    if x >= 1.0 {
      assert Square(x) >= 1.0;
    } else {
      assert Square(x) / x == x;
    }
  }

  lemma SquareNegate(x: real)
    ensures Square(-x) == Square(x)
  {
  }

  /** A square is zero exactly when its root is. */
  lemma SquareZeroIff(x: real)
    ensures Square(x) == 0.0 <==> x == 0.0
  {
    if x > 0.0 {
      PositiveSquareNonZero(x);
    } else if x < 0.0 {
      PositiveSquareNonZero(-x);
      SquareNegate(x);
    }
  }

  lemma MeanOfConstant(n: real, c: real)
    requires n > 0.0
    ensures (n * c) / n == c
  {
  }

  lemma MeanOfShifted(s: real, n: real, c: real)
    requires n > 0.0
    ensures (s + n * c) / n == s / n + c
  {
  }

  lemma ExpandSquaredDeviation(x: real, m: real)
    ensures Square(x - m) == Square(x) - 2.0 * m * x + Square(m)
  {
    assert Square(x - m) == (x - m) * (x - m);
    assert Square(x) == x * x;
    assert Square(m) == m * m;
  }

  /** `c * x` as a function of its own: proofs pass products between lemmas as
      applications of Scale, which the solver matches far more cheaply than raw products. */
  function Scale(c: real, x: real): real
  {
    c * x
  }

  lemma ScaleDistributes(c: real, a: real, b: real)
    ensures Scale(c, a + b) == Scale(c, a) + Scale(c, b)
  {
  }

  lemma ScaleSuccessor(q: real, k: real, n: real)
    requires n == k + 1.0
    ensures Scale(n, q) == Scale(k, q) + q
  {
  }

  // ---------------------------------------------------------------------------
  // Facts about sums and counts

  lemma {:induction false} SumNonNegative(s: seq<real>)
    requires forall i :: 0 <= i < |s| ==> s[i] >= 0.0
    ensures Sum(s) >= 0.0
  {
    if s != [] {
      SumNonNegative(s[1..]);
    }
  }

  /** A sum of non-negative terms is zero exactly when every term is. */
  lemma {:induction false} SumZeroIff(s: seq<real>)
    requires forall i :: 0 <= i < |s| ==> s[i] >= 0.0
    ensures Sum(s) == 0.0 <==> forall i :: 0 <= i < |s| ==> s[i] == 0.0
  {
    if s != [] {
      SumZeroIff(s[1..]);
      SumNonNegative(s[1..]);
      if Sum(s) == 0.0 {
        forall i | 0 <= i < |s| ensures s[i] == 0.0 {
          if i > 0 { assert s[i] == s[1..][i - 1]; }
        }
      }
    }
  }

  lemma {:induction false} SumConcat(a: seq<real>, b: seq<real>)
    ensures Sum(a + b) == Sum(a) + Sum(b)
  {
    if a == [] {
      assert a + b == b;
    } else {
      assert (a + b)[1..] == a[1..] + b;
      SumConcat(a[1..], b);
    }
  }

  /** n copies of c sum to n * c. */
  lemma {:induction false} SumConstant(s: seq<real>, c: real)
    requires forall i :: 0 <= i < |s| ==> s[i] == c
    ensures Sum(s) == (|s| as real) * c
  {
    if s != [] {
      SumConstant(s[1..], c);
    }
  }

  lemma {:induction false} CountZeroIff(s: seq<real>)
    ensures CountAboveThreshold(s) == 0 <==> forall i :: 0 <= i < |s| ==> s[i] <= Nn50ThresholdMillis
  {
    if s != [] {
      CountZeroIff(s[1..]);
      if CountAboveThreshold(s) == 0 {
        forall i | 0 <= i < |s| ensures s[i] <= Nn50ThresholdMillis {
          if i > 0 { assert s[i] == s[1..][i - 1]; }
        }
      }
    }
  }

  /** Every term counts exactly when every term is above the threshold. */
  lemma {:induction false} CountAllIff(s: seq<real>)
    ensures CountAboveThreshold(s) == |s| <==> forall i :: 0 <= i < |s| ==> s[i] > Nn50ThresholdMillis
  {
    if s != [] {
      CountAllIff(s[1..]);
      if CountAboveThreshold(s) == |s| {
        forall i | 0 <= i < |s| ensures s[i] > Nn50ThresholdMillis {
          if i > 0 { assert s[i] == s[1..][i - 1]; }
        }
      }
    }
  }

  lemma {:induction false} CountConcat(a: seq<real>, b: seq<real>)
    ensures CountAboveThreshold(a + b) == CountAboveThreshold(a) + CountAboveThreshold(b)
  {
    if a == [] {
      assert a + b == b;
    } else {
      assert (a + b)[1..] == a[1..] + b;
      CountConcat(a[1..], b);
    }
  }

  // ---------------------------------------------------------------------------
  // Reversal and shifting

  function Reverse(s: seq<real>): (r: seq<real>)
    ensures |r| == |s|
    ensures forall i :: 0 <= i < |s| ==> r[i] == s[|s| - 1 - i]
  {
    seq(|s|, i requires 0 <= i < |s| => s[|s| - 1 - i])
  }

  /** Every interval moved by the same constant c. */
  function Shift(s: seq<real>, c: real): (r: seq<real>)
    ensures |r| == |s|
    ensures forall i :: 0 <= i < |s| ==> r[i] == s[i] + c
  {
    seq(|s|, i requires 0 <= i < |s| => s[i] + c)
  }

  lemma {:induction false} SumReverse(s: seq<real>)
    ensures Sum(Reverse(s)) == Sum(s)
  {
    if s != [] {
      assert Reverse(s) == Reverse(s[1..]) + [s[0]];
      SumConcat(Reverse(s[1..]), [s[0]]);
      SumReverse(s[1..]);
    }
  }

  lemma {:induction false} CountReverse(s: seq<real>)
    ensures CountAboveThreshold(Reverse(s)) == CountAboveThreshold(s)
  {
    if s != [] {
      assert Reverse(s) == Reverse(s[1..]) + [s[0]];
      CountConcat(Reverse(s[1..]), [s[0]]);
      CountReverse(s[1..]);
    }
  }

  /** Successive steps all zero exactly when the whole list is one value. */
  lemma {:induction false} StepsZeroIffConstant(rr: seq<real>)
    requires |rr| > 0
    ensures (forall i :: 0 <= i < |rr| - 1 ==> rr[i + 1] == rr[i])
        <==> (forall i :: 0 <= i < |rr| ==> rr[i] == rr[0])
  {
    if forall i :: 0 <= i < |rr| - 1 ==> rr[i + 1] == rr[i] {
      var k := 0;
      while k < |rr|
        invariant 0 <= k <= |rr|
        invariant forall i :: 0 <= i < k ==> rr[i] == rr[0]
      {
        if k > 0 { assert rr[k] == rr[k - 1]; }
        k := k + 1;
      }
    }
  }

  // ---------------------------------------------------------------------------
  // RMSSD

  /** A mean over a positive count is zero exactly when the sum is. */
  lemma MeanZeroIff(s: seq<real>)
    requires |s| > 0
    ensures Mean(s) == 0.0 <==> Sum(s) == 0.0
  {
    DivZeroIff(Sum(s), |s| as real);
  }

  /** RMSSD is zero exactly when all intervals are equal. */
  lemma RmssdSquaredZeroIffConstant(rr: seq<real>)
    requires |rr| >= 2
    ensures RmssdSquared(rr) == 0.0 <==> forall i :: 0 <= i < |rr| ==> rr[i] == rr[0]
  {
    var d := SuccessiveDiffs(rr);
    var sq := Squares(d);
    assert RmssdSquared(rr) == Mean(sq);
    MeanZeroIff(sq);
    SumZeroIff(sq);
    forall i | 0 <= i < |d|
      ensures sq[i] == 0.0 <==> rr[i + 1] == rr[i]
    {
      SquareZeroIff(d[i]);
    }
    if forall i :: 0 <= i < |sq| ==> sq[i] == 0.0 {
      forall i | 0 <= i < |rr| - 1 ensures rr[i + 1] == rr[i] {
        assert sq[i] == 0.0;
      }
    }
    if forall i :: 0 <= i < |rr| - 1 ==> rr[i + 1] == rr[i] {
      forall i | 0 <= i < |sq| ensures sq[i] == 0.0 {
        assert rr[i + 1] == rr[i];
      }
    }
    StepsZeroIffConstant(rr);
  }

  /** Squared steps of the reversed list are the reversed squared steps. */
  lemma SquaredStepsReverse(rr: seq<real>)
    ensures Squares(SuccessiveDiffs(Reverse(rr))) == Reverse(Squares(SuccessiveDiffs(rr)))
  {
    var d := SuccessiveDiffs(rr);
    var dRev := SuccessiveDiffs(Reverse(rr));
    var left, right := Squares(dRev), Reverse(Squares(d));
    var n := |rr|;
    assert |left| == |right|;
    forall i | 0 <= i < |left|
      ensures left[i] == right[i]
    {
      var j := n - 2 - i;
      assert right[i] == Square(d[j]);
      assert dRev[i] == Reverse(rr)[i + 1] - Reverse(rr)[i];
      assert dRev[i] == -d[j];
      SquareNegate(d[j]);
    }
    assert left == right;
  }

  /** RMSSD is the same when the list is read backwards: only the size of each step matters. */
  lemma RmssdSquaredReverse(rr: seq<real>)
    ensures RmssdSquared(Reverse(rr)) == RmssdSquared(rr)
  {
    if |rr| >= 2 {
      SquaredStepsReverse(rr);
      SumReverse(Squares(SuccessiveDiffs(rr)));
    }
  }

  /** RMSSD does not change when every interval is moved by the same amount. */
  lemma RmssdSquaredShift(rr: seq<real>, c: real)
    ensures RmssdSquared(Shift(rr, c)) == RmssdSquared(rr)
  {
    if |rr| >= 2 {
      var shifted, d := SuccessiveDiffs(Shift(rr, c)), SuccessiveDiffs(rr);
      forall i | 0 <= i < |d| ensures shifted[i] == d[i] {
        assert Shift(rr, c)[i + 1] - Shift(rr, c)[i] == rr[i + 1] - rr[i];
      }
      assert shifted == d;
    }
  }

  // ---------------------------------------------------------------------------
  // SDNN

  /** Every interval equals the mean exactly when all intervals are equal. */
  lemma AllAtMeanIffConstant(rr: seq<real>)
    requires |rr| >= 1
    ensures (forall i :: 0 <= i < |rr| ==> rr[i] == Mean(rr))
        <==> (forall i :: 0 <= i < |rr| ==> rr[i] == rr[0])
  {
    if forall i :: 0 <= i < |rr| ==> rr[i] == rr[0] {
      SumConstant(rr, rr[0]);
      MeanOfConstant(|rr| as real, rr[0]);
    }
  }

  /** Squared deviations from m sum to zero exactly when every value is m. */
  lemma SquaredDeviationsZeroIff(s: seq<real>, m: real)
    ensures Sum(SquaredDeviations(s, m)) == 0.0 <==> forall i :: 0 <= i < |s| ==> s[i] == m
  {
    var dev := SquaredDeviations(s, m);
    SumZeroIff(dev);
    forall i | 0 <= i < |s|
      ensures dev[i] == 0.0 <==> s[i] == m
    {
      SquareZeroIff(s[i] - m);
    }
    if forall i :: 0 <= i < |s| ==> s[i] == m {
      forall i | 0 <= i < |dev| ensures dev[i] == 0.0 {
        assert s[i] == m;
      }
    }
    if forall i :: 0 <= i < |dev| ==> dev[i] == 0.0 {
      forall i | 0 <= i < |s| ensures s[i] == m {
        assert dev[i] == 0.0;
      }
    }
  }

  /** SDNN is zero exactly when all intervals are equal (including one interval). */
  lemma SdnnSquaredZeroIffConstant(rr: seq<real>)
    requires |rr| >= 1
    ensures SdnnSquared(rr) == 0.0 <==> forall i :: 0 <= i < |rr| ==> rr[i] == rr[0]
  {
    var dev := SquaredDeviations(rr, Mean(rr));
    assert SdnnSquared(rr) == Mean(dev);
    MeanZeroIff(dev);
    SquaredDeviationsZeroIff(rr, Mean(rr));
    AllAtMeanIffConstant(rr);
  }

  lemma SumSquaredDeviationsCons(s: seq<real>, m: real)
    requires s != []
    ensures Sum(SquaredDeviations(s, m)) == Square(s[0] - m) + Sum(SquaredDeviations(s[1..], m))
  {
    assert SquaredDeviations(s, m)[1..] == SquaredDeviations(s[1..], m);
  }

  lemma SumSquaresCons(s: seq<real>)
    requires s != []
    ensures Sum(Squares(s)) == Square(s[0]) + Sum(Squares(s[1..]))
  {
    assert Squares(s)[1..] == Squares(s[1..]);
  }

  /** Sum of squared deviations from any point m, expanded. */
  lemma {:induction false} SumSquaredDeviationsExpand(s: seq<real>, m: real)
    ensures Sum(SquaredDeviations(s, m))
         == Sum(Squares(s)) - 2.0 * Scale(m, Sum(s)) + Scale(|s| as real, Square(m))
  {
    if s != [] {
      SumSquaredDeviationsExpand(s[1..], m);
      SumSquaredDeviationsCons(s, m);
      SumSquaresCons(s);
      ExpandStep(s[0], m, Sum(SquaredDeviations(s[1..], m)), Sum(Squares(s[1..])), Sum(s[1..]), Sum(s),
                 |s[1..]| as real, |s| as real);
    }
  }

  /** One induction step of SumSquaredDeviationsExpand, on plain values. */
  lemma ExpandStep(x: real, m: real, restDev: real, restSq: real, restSum: real, sum: real, k: real, n: real)
    requires sum == x + restSum && n == k + 1.0
    requires restDev == restSq - 2.0 * Scale(m, restSum) + Scale(k, Square(m))
    ensures Square(x - m) + restDev == (Square(x) + restSq) - 2.0 * Scale(m, sum) + Scale(n, Square(m))
  {
    ExpandSquaredDeviation(x, m);
    ScaleDistributes(m, x, restSum);
    ScaleSuccessor(Square(m), k, n);
  }

  /** Dividing the expanded sum by n: with m the mean, the mean squared deviation is
      the mean of the squares minus the square of m. */
  lemma MeanOfExpanded(dev: seq<real>, sq: seq<real>, rr: seq<real>)
    requires |dev| == |rr| && |sq| == |rr| && |rr| > 0
    requires Sum(dev) == Sum(sq) - 2.0 * Scale(Mean(rr), Sum(rr)) + Scale(|rr| as real, Square(Mean(rr)))
    ensures Mean(dev) == Mean(sq) - Square(Mean(rr))
  {
    VarianceAlgebra(Sum(dev), Sum(sq), Sum(rr), |rr| as real, Mean(rr));
  }

  /** The same on plain values: d = q - 2 m s + n m^2 with m = s / n gives
      d / n = q / n - m^2. */
  lemma VarianceAlgebra(d: real, q: real, s: real, n: real, m: real)
    requires n > 0.0 && m == s / n
    requires d == q - 2.0 * Scale(m, s) + Scale(n, Square(m))
    ensures d / n == q / n - Square(m)
  {
    DivMulCancel(s, n);
    var sq := Square(m);
    assert Scale(n, sq) == Scale(m, s) by {
      assert sq == m * m;
      assert n * m == s;
    }
    assert (q - m * s) / n == q / n - (m * s) / n;
    assert (m * s) / n == m * (s / n);
    assert m * (s / n) == sq;
  }

  /** SDNN squared by the computational formula: the mean of the squares minus the
      square of the mean. */
  lemma SdnnSquaredMeanOfSquares(rr: seq<real>)
    requires |rr| >= 1
    ensures SdnnSquared(rr) == Mean(Squares(rr)) - Square(Mean(rr))
  {
    SumSquaredDeviationsExpand(rr, Mean(rr));
    MeanOfExpanded(SquaredDeviations(rr, Mean(rr)), Squares(rr), rr);
  }

  lemma {:induction false} SumShift(s: seq<real>, c: real)
    ensures Sum(Shift(s, c)) == Sum(s) + (|s| as real) * c
  {
    if s != [] {
      assert Shift(s, c)[1..] == Shift(s[1..], c);
      SumShift(s[1..], c);
    }
  }

  /** SDNN does not change when every interval is moved by the same amount. */
  lemma SdnnSquaredShift(rr: seq<real>, c: real)
    ensures SdnnSquared(Shift(rr, c)) == SdnnSquared(rr)
  {
    if |rr| >= 1 {
      var shifted := Shift(rr, c);
      SumShift(rr, c);
      MeanOfShifted(Sum(rr), |rr| as real, c);
      var m := Mean(rr);
      assert Mean(shifted) == m + c;
      assert SquaredDeviations(shifted, m + c) == SquaredDeviations(rr, m);
    }
  }

  // ---------------------------------------------------------------------------
  // PNN50

  /** PNN50 is zero exactly when no successive step exceeds 50 ms in either direction. */
  lemma Pnn50ZeroIff(rr: seq<real>)
    requires |rr| >= 2
    ensures Pnn50(rr) == 0.0 <==> forall i :: 0 <= i < |rr| - 1 ==> Abs(rr[i + 1] - rr[i]) <= Nn50ThresholdMillis
  {
    var d := AbsSuccessiveDiffs(rr);
    assert Pnn50(rr) == Percentage(CountAboveThreshold(d), |d|);
    CountZeroIff(d);
    if forall i :: 0 <= i < |d| ==> d[i] <= Nn50ThresholdMillis {
      forall i | 0 <= i < |rr| - 1 ensures Abs(rr[i + 1] - rr[i]) <= Nn50ThresholdMillis {
        assert d[i] <= Nn50ThresholdMillis;
      }
    }
    if forall i :: 0 <= i < |rr| - 1 ==> Abs(rr[i + 1] - rr[i]) <= Nn50ThresholdMillis {
      forall i | 0 <= i < |d| ensures d[i] <= Nn50ThresholdMillis {
        assert Abs(rr[i + 1] - rr[i]) <= Nn50ThresholdMillis;
      }
    }
  }

  /** PNN50 is 100 exactly when every successive step exceeds 50 ms in either direction. */
  lemma Pnn50HundredIff(rr: seq<real>)
    requires |rr| >= 2
    ensures Pnn50(rr) == 100.0 <==> forall i :: 0 <= i < |rr| - 1 ==> Abs(rr[i + 1] - rr[i]) > Nn50ThresholdMillis
  {
    var d := AbsSuccessiveDiffs(rr);
    assert Pnn50(rr) == Percentage(CountAboveThreshold(d), |d|);
    CountAllIff(d);
    if forall i :: 0 <= i < |d| ==> d[i] > Nn50ThresholdMillis {
      forall i | 0 <= i < |rr| - 1 ensures Abs(rr[i + 1] - rr[i]) > Nn50ThresholdMillis {
        assert d[i] > Nn50ThresholdMillis;
      }
    }
    if forall i :: 0 <= i < |rr| - 1 ==> Abs(rr[i + 1] - rr[i]) > Nn50ThresholdMillis {
      forall i | 0 <= i < |d| ensures d[i] > Nn50ThresholdMillis {
        assert Abs(rr[i + 1] - rr[i]) > Nn50ThresholdMillis;
      }
    }
  }

  /** Decreasing steps count like increasing ones: PNN50 is the same read backwards. */
  lemma Pnn50Reverse(rr: seq<real>)
    ensures Pnn50(Reverse(rr)) == Pnn50(rr)
  {
    if |rr| >= 2 {
      var d := AbsSuccessiveDiffs(rr);
      var dRev := AbsSuccessiveDiffs(Reverse(rr));
      var n := |rr|;
      forall i | 0 <= i < |d| ensures dRev[i] == Reverse(d)[i] {
        var j := n - 2 - i;
        assert Reverse(d)[i] == Abs(rr[j + 1] - rr[j]);
        assert dRev[i] == Abs(Reverse(rr)[i + 1] - Reverse(rr)[i]);
        assert Reverse(rr)[i + 1] - Reverse(rr)[i] == -(rr[j + 1] - rr[j]);
      }
      assert dRev == Reverse(d);
      CountReverse(d);
      }
  }

  // ---------------------------------------------------------------------------
  // Worked values from the calculator's unit tests

  lemma RmssdSquaredExamples()
    ensures RmssdSquared([800.0, 850.0]) == 2500.0
    ensures RmssdSquared([800.0, 810.0, 805.0, 815.0]) == 75.0
    ensures RmssdSquared([800.0]) == 0.0
  {
  }

  lemma SumOfFour(s: seq<real>)
    requires |s| == 4
    ensures Sum(s) == s[0] + s[1] + s[2] + s[3]
  {
    assert Sum(s[3..]) == s[3] + Sum(s[4..]) && s[4..] == [];
    assert Sum(s[2..]) == s[2] + Sum(s[2..][1..]) && s[2..][1..] == s[3..];
    assert Sum(s[1..]) == s[1] + Sum(s[1..][1..]) && s[1..][1..] == s[2..];
  }

  /** The tests of an empty list, a single interval and identical intervals. */
  lemma SdnnSquaredConstantExamples()
    ensures SdnnSquared([]) == 0.0
    ensures SdnnSquared([800.0]) == 0.0
    ensures SdnnSquared([800.0, 800.0, 800.0]) == 0.0
  {
    SdnnSquaredZeroIffConstant([800.0]);
    SdnnSquaredZeroIffConstant([800.0, 800.0, 800.0]);
  }

  /** [800, 810, 790, 820] has mean 805 and deviations 5, 5, 15 and 15 ms. */
  lemma SdnnSquaredVaryingExample()
    ensures SdnnSquared([800.0, 810.0, 790.0, 820.0]) == 125.0
  {
    var varying := [800.0, 810.0, 790.0, 820.0];
    SumOfFour(varying);
    assert Mean(varying) == 805.0;
    var dev := SquaredDeviations(varying, 805.0);
    assert dev[0] == Square(-5.0) && dev[1] == Square(5.0);
    assert dev[2] == Square(-15.0) && dev[3] == Square(15.0);
    SumOfFour(dev);
  }

  /** 1 when a difference counts towards PNN50, 0 otherwise. */
  function Counts(d: real): nat
  {
    if d > Nn50ThresholdMillis then 1 else 0
  }

  lemma CountOfThree(s: seq<real>)
    requires |s| == 3
    ensures CountAboveThreshold(s) == Counts(s[0]) + Counts(s[1]) + Counts(s[2])
  {
    assert CountAboveThreshold(s[2..]) == Counts(s[2]) + CountAboveThreshold(s[3..]) && s[3..] == [];
    assert CountAboveThreshold(s[1..]) == Counts(s[1]) + CountAboveThreshold(s[1..][1..]) && s[1..][1..] == s[2..];
  }

  lemma CountOfFour(s: seq<real>)
    requires |s| == 4
    ensures CountAboveThreshold(s) == Counts(s[0]) + Counts(s[1]) + Counts(s[2]) + Counts(s[3])
  {
    CountOfThree(s[1..]);
  }

  /** The tests of a list with no step above 50 ms and of one with every step above. */
  lemma Pnn50ExtremeExamples()
    ensures Pnn50([800.0, 810.0, 820.0, 830.0]) == 0.0
    ensures Pnn50([800.0, 900.0, 1000.0, 1100.0]) == 100.0
    ensures Pnn50([800.0]) == 0.0
    ensures Pnn50([]) == 0.0
  {
    Pnn50ZeroIff([800.0, 810.0, 820.0, 830.0]);
    Pnn50HundredIff([800.0, 900.0, 1000.0, 1100.0]);
  }

  /** A step of exactly 50 ms does not count; a step of 51 ms does. */
  lemma Pnn50BoundaryExamples()
    ensures Pnn50([800.0, 850.0, 900.0]) == 0.0
    ensures Pnn50([800.0, 851.0, 902.0]) == 100.0
  {
    Pnn50ZeroIff([800.0, 850.0, 900.0]);
    Pnn50HundredIff([800.0, 851.0, 902.0]);
  }

  /** Two of four steps above 50 ms give 50. */
  lemma Pnn50HalfExample()
    ensures Pnn50([800.0, 860.0, 870.0, 930.0, 940.0]) == 50.0
  {
    var steps := AbsSuccessiveDiffs([800.0, 860.0, 870.0, 930.0, 940.0]);
    assert steps[0] == 60.0 && steps[1] == 10.0 && steps[2] == 60.0 && steps[3] == 10.0;
    CountOfFour(steps);
  }

  /** Falls count like rises: two of the three steps of 100, 50 and 100 ms count. */
  lemma Pnn50FallingExample()
    ensures Pnn50([900.0, 800.0, 750.0, 850.0]) == 200.0 / 3.0
  {
    var steps := AbsSuccessiveDiffs([900.0, 800.0, 750.0, 850.0]);
    assert steps[0] == 100.0 && steps[1] == 50.0 && steps[2] == 100.0;
    CountOfThree(steps);
  }
}
