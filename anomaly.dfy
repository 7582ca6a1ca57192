/**
 * The observation history of one tracked object, with iterative outlier
 * flagging (class History of overseer_anomaly_correction/overseer.py).
 *
 * Observations are scalars; the per-observation anomaly flag lives in a
 * sequence parallel to them. A scan takes the unflagged observations, forms
 * their second differences, flags the observation that ends the first triple
 * whose second difference deviates by more than `threshold` population
 * standard deviations, and starts over, until the newest observation is
 * flagged or nothing more is flagged.
 */
module Anomaly {
  import opened Wrappers
  import Window

  // ---------------------------------------------------------------------------
  // The unflagged observations
  // ---------------------------------------------------------------------------

  function CountFalse(flags: seq<bool>): nat
  {
    if flags == [] then 0
    else CountFalse(flags[..|flags| - 1]) + if flags[|flags| - 1] then 0 else 1
  }

  /** The positions of the unflagged observations, oldest first. */
  function UnflaggedIndices(flags: seq<bool>): (idx: seq<nat>)
    ensures |idx| == CountFalse(flags)
    ensures forall j :: 0 <= j < |idx| ==> idx[j] < |flags| && !flags[idx[j]]
  {
    if flags == [] then []
    else
      var n := |flags| - 1;
      UnflaggedIndices(flags[..n]) + if flags[n] then [] else [n]
  }

  /**
   * The j-th unflagged observation has exactly j unflagged observations
   * before it; so the positions increase and miss no unflagged observation.
   */
  lemma {:induction false} UnflaggedRank(flags: seq<bool>, j: nat)
    requires j < CountFalse(flags)
    ensures CountFalse(flags[..UnflaggedIndices(flags)[j]]) == j
  {
    var n := |flags| - 1;
    var idx := UnflaggedIndices(flags);
    var front := UnflaggedIndices(flags[..n]);
    assert flags[..n][..|flags[..n]|] == flags[..n];
    if j < |front| {
      UnflaggedRank(flags[..n], j);
      assert idx[j] == front[j];
      assert flags[..n][..front[j]] == flags[..front[j]];
    } else {
      assert idx[j] == n;
    }
  }

  /** Flagging an unflagged observation leaves one unflagged observation fewer. */
  lemma {:induction false} FlagOneLess(flags: seq<bool>, p: nat)
    requires p < |flags| && !flags[p]
    ensures CountFalse(flags[p := true]) == CountFalse(flags) - 1
  {
    var n := |flags| - 1;
    var g := flags[p := true];
    assert g[..n] == if p < n then flags[..n][p := true] else flags[..n];
    if p < n {
      FlagOneLess(flags[..n], p);
    }
  }

  /** Flagging never adds unflagged observations to any prefix. */
  lemma {:induction false} FlagPrefix(flags: seq<bool>, p: nat, i: nat)
    requires p < |flags| && i <= |flags|
    ensures CountFalse(flags[p := true][..i]) <= CountFalse(flags[..i])
  {
    if i > 0 {
      var g := flags[p := true];
      assert g[..i][..i - 1] == g[..i - 1];
      assert flags[..i][..i - 1] == flags[..i - 1];
      FlagPrefix(flags, p, i - 1);
    }
  }

  /** `[values[i] for i in idx]`. */
  function Pick(values: seq<int>, idx: seq<nat>): (r: seq<int>)
    requires forall j :: 0 <= j < |idx| ==> idx[j] < |values|
    ensures |r| == |idx| && forall j :: 0 <= j < |idx| ==> r[j] == values[idx[j]]
  {
    seq(|idx|, j requires 0 <= j < |idx| => values[idx[j]])
  }

  // ---------------------------------------------------------------------------
  // Second differences and the deviation test
  // ---------------------------------------------------------------------------

  /** `numpy.diff(v)`. */
  function Diff(v: seq<int>): (r: seq<int>)
    ensures |r| == if |v| == 0 then 0 else |v| - 1
    ensures forall i :: 0 <= i < |r| ==> r[i] == v[i + 1] - v[i]
  {
    if |v| <= 1 then [] else seq(|v| - 1, i requires 0 <= i < |v| - 1 => v[i + 1] - v[i])
  }

  /** `numpy.diff(v, n=2)`. */
  function SecondDiffs(v: seq<int>): seq<int>
  {
    Diff(Diff(v))
  }

  /** The second difference of each triple of neighbours, one per observation from the third on. */
  lemma SecondDiffsAt(v: seq<int>)
    ensures |SecondDiffs(v)| == if |v| < 2 then 0 else |v| - 2
    ensures forall i :: 0 <= i < |SecondDiffs(v)| ==> SecondDiffs(v)[i] == v[i + 2] - 2 * v[i + 1] + v[i]
  {
  }

  /**
   * The sums of the samples and of their squares, over the integers. The scan
   * and its deviation test stay on integers, where the solver is fast; `Sum`
   * and `SumSq` below are the same sums over the reals, for the link to the
   * standard deviation, and `SumCast` proves the two agree.
   */
  function IntSum(s: seq<int>): int
  {
    if s == [] then 0 else IntSum(s[..|s| - 1]) + s[|s| - 1]
  }

  function IntSumSq(s: seq<int>): int
  {
    if s == [] then 0 else IntSumSq(s[..|s| - 1]) + s[|s| - 1] * s[|s| - 1]
  }

  /**
   * `abs(d) > numpy.std(samples) * threshold` without the square root, for n
   * samples with sum s1 and sum of squares s2: the population variance is
   * (n * s2 - s1 * s1) / n^2, so for a non-negative threshold t the test is
   * n^2 * d^2 > t^2 * (n * s2 - s1 * s1).
   */
  predicate Deviates(n: int, d: int, s1: int, s2: int, t: real)
  {
    ((n * n * (d * d)) as real) > t * t * ((n * s2 - s1 * s1) as real)
  }

  /** The deviation test of one sample against all the samples of a pass. */
  predicate Exceeds(d: int, samples: seq<int>, t: real)
  {
    Deviates(|samples|, d, IntSum(samples), IntSumSq(samples), t)
  }

  /** A deviation test: whether a sample stands out among all the samples of a pass. */
  type Test = (int, seq<int>) -> bool

  /** The test of `latest_is_anomalous` for the threshold t. */
  function Deviation(t: real): Test
  {
    (d: int, samples: seq<int>) => Exceeds(d, samples, t)
  }

  /** The first sample from `k` on that fails the deviation test, if any. */
  function FirstExceeding(samples: seq<int>, test: Test, k: nat): Option<nat>
    decreases |samples| - k
  {
    if k >= |samples| then None
    else if test(samples[k], samples) then Some(k)
    else FirstExceeding(samples, test, k + 1)
  }

  /** The search finds the first failing sample from `k` on, and none exactly when no sample there fails. */
  lemma {:induction false} FirstExceedingSound(samples: seq<int>, test: Test, k: nat)
    ensures var r := FirstExceeding(samples, test, k);
      && (r.Some? ==> k <= r.value < |samples| && test(samples[r.value], samples))
      && forall i :: k <= i < |samples| && (r == None || i < r.value) ==> !test(samples[i], samples)
    decreases |samples| - k
  {
    if k < |samples| && !test(samples[k], samples) {
      FirstExceedingSound(samples, test, k + 1);
    }
  }

  /** The second differences of the unflagged observations. */
  function Samples(values: seq<int>, flags: seq<bool>): seq<int>
    requires |values| == |flags|
  {
    SecondDiffs(Pick(values, UnflaggedIndices(flags)))
  }

  /**
   * One pass of the `for ... else` of `latest_is_anomalous`: the position of
   * the observation to flag, the unflagged observation that ends the first
   * triple whose second difference fails the deviation test; none if no
   * sample fails it.
   */
  function Pass(values: seq<int>, flags: seq<bool>, test: Test): Option<nat>
    requires |values| == |flags|
  {
    var idx := UnflaggedIndices(flags);
    var samples := SecondDiffs(Pick(values, idx));
    match FirstExceeding(samples, test, 0)
    case None => None
    case Some(k) =>
      FirstExceedingSound(samples, test, 0);
      SecondDiffsAt(Pick(values, idx));
      Some(idx[k + 2])
  }

  /**
   * The observation a pass flags is unflagged and has at least two unflagged
   * observations before it; the sample of the triple it ends is the first to
   * fail the deviation test; and a pass flags nothing exactly when no sample
   * fails it.
   */
  lemma PassSound(values: seq<int>, flags: seq<bool>, test: Test)
    requires |values| == |flags|
    ensures var r := Pass(values, flags, test);
      && (r.Some? ==> r.value < |flags| && !flags[r.value] && CountFalse(flags[..r.value]) >= 2)
      && var samples := Samples(values, flags);
      && (r.Some? ==>
            var k := CountFalse(flags[..r.value]) - 2;
            && k < |samples| && test(samples[k], samples)
            && forall j :: 0 <= j < k ==> !test(samples[j], samples))
      && (r == None ==> forall j :: 0 <= j < |samples| ==> !test(samples[j], samples))
  {
    var idx := UnflaggedIndices(flags);
    var samples := Samples(values, flags);
    FirstExceedingSound(samples, test, 0);
    SecondDiffsAt(Pick(values, idx));
    match FirstExceeding(samples, test, 0)
    case None =>
    case Some(k) =>
      assert Pass(values, flags, test) == Some(idx[k + 2]);
      UnflaggedRank(flags, k + 2);
      assert CountFalse(flags[..idx[k + 2]]) - 2 == k;
  }

  /**
   * A pass flags an unflagged observation: the first clause of `PassSound`,
   * kept apart because the termination of `Scan` needs only this fact and the
   * full lemma would cost it far more to prove.
   */
  lemma PassFlagsUnflagged(values: seq<int>, flags: seq<bool>, test: Test)
    requires |values| == |flags| && Pass(values, flags, test).Some?
    ensures Pass(values, flags, test).value < |flags| && !flags[Pass(values, flags, test).value]
  {
    var samples := Samples(values, flags);
    FirstExceedingSound(samples, test, 0);
    SecondDiffsAt(Pick(values, UnflaggedIndices(flags)));
  }

  // ---------------------------------------------------------------------------
  // The scan (latest_is_anomalous)
  // ---------------------------------------------------------------------------

  /** Whether the newest observation is anomalous, and the flags after the scan. */
  datatype Verdict = Verdict(anomalous: bool, flags: seq<bool>)

  /**
   * `latest_is_anomalous`: return True as soon as the newest observation is
   * flagged; otherwise flag what one pass finds and start over, or return
   * False when the pass finds nothing (which covers fewer than three
   * unflagged observations, where there is no second difference at all).
   */
  function Scan(values: seq<int>, flags: seq<bool>, test: Test): (r: Verdict)
    requires |values| == |flags| > 0
    // the verdict is the final flag of the newest observation
    ensures |r.flags| == |flags| && r.anomalous == r.flags[|flags| - 1]
    decreases CountFalse(flags)
  {
    if flags[|flags| - 1] then Verdict(true, flags)
    else
      match Pass(values, flags, test)
      case None => Verdict(false, flags)
      case Some(p) =>
        PassFlagsUnflagged(values, flags, test);
        FlagOneLess(flags, p);
        Scan(values, flags[p := true], test)
  }

  /** Flags are only ever set. */
  lemma {:induction false} ScanOnlySets(values: seq<int>, flags: seq<bool>, test: Test)
    requires |values| == |flags| > 0
    ensures forall i :: 0 <= i < |flags| && flags[i] ==> Scan(values, flags, test).flags[i]
    decreases CountFalse(flags)
  {
    if !flags[|flags| - 1] {
      match Pass(values, flags, test)
      case None =>
      case Some(p) =>
        PassFlagsUnflagged(values, flags, test);
        FlagOneLess(flags, p);
        ScanOnlySets(values, flags[p := true], test);
    }
  }

  /** A negative verdict comes from a last pass that found nothing. */
  lemma {:induction false} ScanSettles(values: seq<int>, flags: seq<bool>, test: Test)
    requires |values| == |flags| > 0
    ensures !Scan(values, flags, test).anomalous ==> Pass(values, Scan(values, flags, test).flags, test) == None
    decreases CountFalse(flags)
  {
    if !flags[|flags| - 1] {
      match Pass(values, flags, test)
      case None =>
      case Some(p) =>
        PassFlagsUnflagged(values, flags, test);
        FlagOneLess(flags, p);
        ScanSettles(values, flags[p := true], test);
    }
  }

  /** A pass that finds nothing ends the scan with a negative verdict. */
  lemma ScanFindsNothing(values: seq<int>, flags: seq<bool>, test: Test)
    requires |values| == |flags| > 0 && !flags[|flags| - 1]
    requires FirstExceeding(Samples(values, flags), test, 0) == None
    ensures Scan(values, flags, test) == Verdict(false, flags)
  {
  }

  /**
   * A pass whose first failing sample is the k-th flags the (k+2)-th unflagged
   * observation, and the scan goes on from there with one unflagged fewer.
   */
  lemma ScanFlagsOne(values: seq<int>, flags: seq<bool>, test: Test, k: nat)
    requires |values| == |flags| > 0 && !flags[|flags| - 1]
    requires FirstExceeding(Samples(values, flags), test, 0) == Some(k)
    ensures k + 2 < CountFalse(flags)
    ensures var p := UnflaggedIndices(flags)[k + 2];
      && CountFalse(flags[p := true]) < CountFalse(flags)
      && Scan(values, flags, test) == Scan(values, flags[p := true], test)
  {
    FirstExceedingSound(Samples(values, flags), test, 0);
    SecondDiffsAt(Pick(values, UnflaggedIndices(flags)));
    var p := UnflaggedIndices(flags)[k + 2];
    assert Pass(values, flags, test) == Some(p);
    FlagOneLess(flags, p);
  }

  /** Re-running the scan without a new observation changes nothing. */
  lemma ScanIdempotent(values: seq<int>, flags: seq<bool>, test: Test)
    requires |values| == |flags| > 0
    ensures Scan(values, Scan(values, flags, test).flags, test) == Scan(values, flags, test)
  {
    ScanSettles(values, flags, test);
  }

  /** With fewer than three unflagged observations the scan says no and flags nothing. */
  lemma ScanFewerThanThree(values: seq<int>, flags: seq<bool>, test: Test)
    requires |values| == |flags| > 0 && !flags[|flags| - 1] && CountFalse(flags) < 3
    ensures Scan(values, flags, test) == Verdict(false, flags)
  {
    SecondDiffsAt(Pick(values, UnflaggedIndices(flags)));
  }

  /** The two oldest unflagged observations are never flagged. */
  lemma {:induction false} ScanKeepsOldest(values: seq<int>, flags: seq<bool>, test: Test, i: nat)
    requires |values| == |flags| > 0 && i < |flags|
    requires !flags[i] && CountFalse(flags[..i]) < 2
    ensures !Scan(values, flags, test).flags[i]
    decreases CountFalse(flags)
  {
    if !flags[|flags| - 1] {
      match Pass(values, flags, test)
      case None =>
      case Some(p) =>
        PassSound(values, flags, test);
        FlagOneLess(flags, p);
        FlagPrefix(flags, p, i);
        ScanKeepsOldest(values, flags[p := true], test, i);
    }
  }

  // ---------------------------------------------------------------------------
  // The deviation test is the standard-deviation test
  // ---------------------------------------------------------------------------

  /** The real counterparts of `IntSum` and `IntSumSq` (see `SumCast`). */
  function Sum(s: seq<int>): real
  {
    if s == [] then 0.0 else Sum(s[..|s| - 1]) + s[|s| - 1] as real
  }

  function SumSq(s: seq<int>): real
  {
    if s == [] then 0.0 else SumSq(s[..|s| - 1]) + (s[|s| - 1] as real) * (s[|s| - 1] as real)
  }

  /** The sum of squared deviations of the samples from m. */
  function SquaredDeviations(s: seq<int>, m: real): real
  {
    if s == [] then 0.0
    else
      var x := s[|s| - 1] as real - m;
      SquaredDeviations(s[..|s| - 1], m) + x * x
  }

  ghost predicate IsMean(s: seq<int>, mean: real)
  {
    (|s| as real) * mean == Sum(s)
  }

  ghost predicate IsPopulationStd(s: seq<int>, mean: real, sigma: real)
  {
    IsMean(s, mean) && sigma >= 0.0 && (|s| as real) * (sigma * sigma) == SquaredDeviations(s, mean)
  }

  lemma SquareExpand(x: real, m: real)
    ensures (x - m) * (x - m) == x * x - 2.0 * m * x + m * m
  {
  }

  lemma {:induction false} SquaredDeviationsExpand(s: seq<int>, m: real)
    ensures SquaredDeviations(s, m) == SumSq(s) - 2.0 * m * Sum(s) + (|s| as real) * m * m
  {
    if s != [] {
      SquaredDeviationsExpand(s[..|s| - 1], m);
      SquareExpand(s[|s| - 1] as real, m);
    }
  }

  lemma CentredAlgebra(n: real, s1: real, s2: real, m: real, q: real)
    requires n * m == s1 && q == s2 - 2.0 * m * s1 + n * m * m
    ensures n * q == n * s2 - s1 * s1
  {
    assert n * q == n * s2 - 2.0 * (n * m) * s1 + (n * m) * (n * m);
  }

  lemma MulPos(x: real, y: real)
    requires x > 0.0 && y > 0.0
    ensures x * y > 0.0
  {
  }
  lemma MulNonNeg(x: real, y: real)
    requires x >= 0.0 && y >= 0.0
    ensures x * y >= 0.0
  {
  }
  lemma SquareMonotone(a: real, b: real, p: real, q: real)
    requires 0.0 <= a && 0.0 <= b && p == a * a && q == b * b
    ensures a > b <==> p > q
  {
    assert p - q == (a - b) * (a + b);
    if a > b {
      MulPos(a - b, a + b);
    } else {
      MulNonNeg(b - a, a + b);
      assert (b - a) * (a + b) == -((a - b) * (a + b));
    }
  }
  lemma ScaleCompare(c: real, x: real, y: real, l: real, r: real)
    requires c > 0.0 && l == c * x && r == c * y
    ensures l > r <==> x > y
  {
    assert l - r == c * (x - y);
    if x > y {
      MulPos(c, x - y);
    } else {
      MulNonNeg(c, y - x);
      assert c * (y - x) == -(c * (x - y));
    }
  }
  lemma ScaledSquares(n: real, a: real, b: real, lhs: real, rhs: real)
    requires n > 0.0 && a >= 0.0 && b >= 0.0
    requires lhs == n * (n * (a * a)) && rhs == n * (n * (b * b))
    ensures lhs > rhs <==> a > b
  {
    ScaleCompare(n, n * (a * a), n * (b * b), lhs, rhs);
    ScaleCompare(n, a * a, b * b, n * (a * a), n * (b * b));
    SquareMonotone(a, b, a * a, b * b);
  }

  lemma Regroup(n: real, sigma: real, t: real, c: real)
    requires c == n * (n * (sigma * sigma))
    ensures t * t * c == n * (n * ((sigma * t) * (sigma * t)))
  {
  }

  lemma StdAlgebra(n: real, x: real, sigma: real, t: real, c: real, lhs: real, rhs: real)
    requires n > 0.0 && sigma >= 0.0 && t >= 0.0 && c == n * (n * (sigma * sigma))
    requires lhs == n * (n * (x * x)) && rhs == t * t * c
    ensures lhs > rhs <==> Abs(x) > sigma * t
  {
    Regroup(n, sigma, t, c);
    MulNonNeg(sigma, t);
    if x < 0.0 {
      ScaledSquares(n, -x, sigma * t, lhs, rhs);
    } else {
      ScaledSquares(n, x, sigma * t, lhs, rhs);
    }
  }

  lemma Nest(n: real, v: real, q: real, c: real)
    requires n * v == q && n * q == c
    ensures c == n * (n * v)
  {
  }

  function Abs(x: real): real
  {
    if x < 0.0 then -x else x
  }

  /** The standard-deviation test over plain reals: n samples with sum s1, sum of squares s2 and mean m. */
  lemma StdTestAlgebra(n: real, s1: real, s2: real, m: real, q: real, sigma: real, t: real, x: real, lhs: real, rhs: real)
    requires n > 0.0 && t >= 0.0 && sigma >= 0.0
    requires n * m == s1 && q == s2 - 2.0 * m * s1 + n * m * m && n * (sigma * sigma) == q
    requires lhs == n * (n * (x * x)) && rhs == t * t * (n * s2 - s1 * s1)
    ensures lhs > rhs <==> Abs(x) > sigma * t
  {
    var c := n * s2 - s1 * s1;
    CentredAlgebra(n, s1, s2, m, q);
    Nest(n, sigma * sigma, q, c);
    StdAlgebra(n, x, sigma, t, c, lhs, rhs);
  }

  /** The expansion of the squared deviations, over names for the three sums. */
  lemma Moments(s: seq<int>, m: real) returns (q: real, s1: real, s2: real)
    ensures q == SquaredDeviations(s, m) && s1 == Sum(s) && s2 == SumSq(s)
    ensures q == s2 - 2.0 * m * s1 + (|s| as real) * m * m
  {
    SquaredDeviationsExpand(s, m);
    q, s1, s2 := SquaredDeviations(s, m), Sum(s), SumSq(s);
  }

  /**
   * n samples with sum s1 and sum of squares s2 have mean `mean`, squared
   * deviations q from it, and standard deviation `sigma`.
   */
  predicate Moments3(n: real, s1: real, s2: real, mean: real, q: real, sigma: real)
  {
    && n * mean == s1 && sigma >= 0.0 && n * (sigma * sigma) == q
    && q == s2 - 2.0 * mean * s1 + n * mean * mean
  }

  /** The sums of the samples and their relations to a mean and a standard deviation. */
  lemma Stats(samples: seq<int>, mean: real, sigma: real) returns (q: real, s1: real, s2: real)
    requires IsPopulationStd(samples, mean, sigma)
    ensures s1 == Sum(samples) && s2 == SumSq(samples)
    ensures Moments3(|samples| as real, s1, s2, mean, q, sigma)
  {
    assert (|samples| as real) * mean == Sum(samples);
    assert (|samples| as real) * (sigma * sigma) == SquaredDeviations(samples, mean);
    q, s1, s2 := Moments(samples, mean);
  }

  /** The two sides of the deviation test for a sample x among n samples with sums s1 and s2. */
  predicate Sides(n: real, x: real, t: real, s1: real, s2: real, lhs: real, rhs: real)
  {
    lhs == n * (n * (x * x)) && rhs == t * t * (n * s2 - s1 * s1)
  }

  lemma CastMul(a: int, b: int)
    ensures (a * b) as real == (a as real) * (b as real)
  {
  }

  lemma {:induction false} SumCast(s: seq<int>)
    ensures IntSum(s) as real == Sum(s) && IntSumSq(s) as real == SumSq(s)
  {
    if s != [] {
      SumCast(s[..|s| - 1]);
      CastMul(s[|s| - 1], s[|s| - 1]);
    }
  }

  lemma LeftCast(n: int, d: int)
    ensures (n * n * (d * d)) as real == (n as real) * ((n as real) * ((d as real) * (d as real)))
  {
    CastMul(d, d);
    CastMul(n, d * d);
    CastMul(n, n * (d * d));
    assert n * n * (d * d) == n * (n * (d * d));
  }

  lemma RightCast(n: int, a: int, b: int)
    ensures (n * b - a * a) as real == (n as real) * (b as real) - (a as real) * (a as real)
  {
    CastMul(n, b);
    CastMul(a, a);
  }

  /** The integer test read over the reals, for sides named by `Sides`. */
  lemma DeviatesAt(n: int, d: int, a: int, b: int, t: real, s1: real, s2: real, lhs: real, rhs: real)
    requires a as real == s1 && b as real == s2
    requires Sides(n as real, d as real, t, s1, s2, lhs, rhs)
    ensures Deviates(n, d, a, b, t) <==> lhs > rhs
  {
    LeftCast(n, d);
    RightCast(n, a, b);
  }

  lemma ExceedsAt(d: int, samples: seq<int>, t: real, s1: real, s2: real, lhs: real, rhs: real)
    requires s1 == Sum(samples) && s2 == SumSq(samples)
    requires Sides(|samples| as real, d as real, t, s1, s2, lhs, rhs)
    ensures Exceeds(d, samples, t) <==> lhs > rhs
  {
    SumCast(samples);
    DeviatesAt(|samples|, d, IntSum(samples), IntSumSq(samples), t, s1, s2, lhs, rhs);
  }

  /** The comparison of the two sides over plain reals. */
  lemma SidesAlgebra(n: real, x: real, t: real, mean: real, sigma: real, q: real, s1: real, s2: real)
    returns (lhs: real, rhs: real)
    requires n > 0.0 && t >= 0.0 && Moments3(n, s1, s2, mean, q, sigma)
    ensures Sides(n, x, t, s1, s2, lhs, rhs)
    ensures lhs > rhs <==> Abs(x) > sigma * t
  {
    lhs := n * (n * (x * x));
    rhs := t * t * (n * s2 - s1 * s1);
    StdTestAlgebra(n, s1, s2, mean, q, sigma, t, x, lhs, rhs);
  }

  lemma ExceedsIsStdTest(d: int, samples: seq<int>, t: real, mean: real, sigma: real)
    requires |samples| > 0 && t >= 0.0 && IsPopulationStd(samples, mean, sigma)
    ensures Exceeds(d, samples, t) <==> Abs(d as real) > sigma * t
  {
    var q, s1, s2 := Stats(samples, mean, sigma);
    var lhs, rhs := SidesAlgebra(|samples| as real, d as real, t, mean, sigma, q, s1, s2);
    ExceedsAt(d, samples, t, s1, s2, lhs, rhs);
  }

  // ---------------------------------------------------------------------------
  // Worked examples (threshold 2)
  // ---------------------------------------------------------------------------

  /** Appending an observation appends its position if it is unflagged. */
  lemma UnflaggedAppend(flags: seq<bool>, b: bool)
    ensures UnflaggedIndices(flags + [b]) == UnflaggedIndices(flags) + if b then [] else [|flags|]
  {
    assert (flags + [b])[..|flags|] == flags;
  }

  lemma NoneFlagged()
    ensures UnflaggedIndices([false, false, false, false, false]) == [0, 1, 2, 3, 4]
  {
    UnflaggedAppend([], false);
    assert [] + [false] == [false];
    UnflaggedAppend([false], false);
    assert [false] + [false] == [false, false];
    UnflaggedAppend([false, false], false);
    assert [false, false] + [false] == [false, false, false];
    UnflaggedAppend([false, false, false], false);
    assert [false, false, false] + [false] == [false, false, false, false];
    UnflaggedAppend([false, false, false, false], false);
    assert [false, false, false, false] + [false] == [false, false, false, false, false];
  }

  lemma PickAll(values: seq<int>)
    requires |values| == 5
    ensures Pick(values, [0, 1, 2, 3, 4]) == values
  {
  }

  /** With none of five observations flagged, the samples are the second differences of all of them. */
  lemma AllUnflagged(values: seq<int>)
    requires |values| == 5
    ensures Samples(values, [false, false, false, false, false]) == SecondDiffs(values)
  {
    NoneFlagged();
    PickAll(values);
  }

  lemma SpikeSamples()
    ensures SecondDiffs([10, 12, 11, 13, 100]) == [-3, 3, 85]
  {
    assert Diff([10, 12, 11, 13, 100]) == [2, -1, 2, 87];
  }

  /** 2 sigma is about 80.3 here: only 85 fails the test. */
  lemma SpikeTests()
    ensures FirstExceeding([-3, 3, 85], Deviation(2.0), 0) == Some(2)
  {
    var samples := [-3, 3, 85];
    assert [-3][..0] == [] && IntSum([-3]) == -3 && IntSumSq([-3]) == 9;
    assert [-3, 3][..1] == [-3] && IntSum([-3, 3]) == 0 && IntSumSq([-3, 3]) == 18;
    assert samples[..2] == [-3, 3] && IntSum(samples) == 85 && IntSumSq(samples) == 7243;
    assert !Exceeds(-3, samples, 2.0);
    assert !Exceeds(3, samples, 2.0);
    assert Exceeds(85, samples, 2.0);
  }

  /** Samples -3, 3, 85: 85 fails the test, so the newest observation, 100, is flagged. */
  lemma SpikeIsFlagged(values: seq<int>, flags: seq<bool>)
    requires values == [10, 12, 11, 13, 100] && flags == [false, false, false, false, false]
    ensures Scan(values, flags, Deviation(2.0)) == Verdict(true, [false, false, false, false, true])
  {
    AllUnflagged(values);
    SpikeSamples();
    SpikeTests();
    ScanFlagsOne(values, flags, Deviation(2.0), 2);
    NoneFlagged();
    assert flags[4 := true] == [false, false, false, false, true];
  }

  lemma SmoothSamples()
    ensures SecondDiffs([10, 12, 11, 13, 14]) == [-3, 3, -1]
  {
    assert Diff([10, 12, 11, 13, 14]) == [2, -1, 2, 1];
  }

  /** 2 sigma is about 5.0 here: no sample fails the test. */
  lemma SmoothTests()
    ensures FirstExceeding([-3, 3, -1], Deviation(2.0), 0) == None
  {
    var samples := [-3, 3, -1];
    assert [-3][..0] == [] && IntSum([-3]) == -3 && IntSumSq([-3]) == 9;
    assert [-3, 3][..1] == [-3] && IntSum([-3, 3]) == 0 && IntSumSq([-3, 3]) == 18;
    assert samples[..2] == [-3, 3] && IntSum(samples) == -1 && IntSumSq(samples) == 19;
    assert !Exceeds(-3, samples, 2.0);
    assert !Exceeds(3, samples, 2.0);
    assert !Exceeds(-1, samples, 2.0);
  }

  /** Samples -3, 3, -1: none fails the test, so nothing is flagged. */
  lemma SmoothIsNotFlagged(values: seq<int>, flags: seq<bool>)
    requires values == [10, 12, 11, 13, 14] && flags == [false, false, false, false, false]
    ensures Scan(values, flags, Deviation(2.0)) == Verdict(false, [false, false, false, false, false])
  {
    AllUnflagged(values);
    SmoothSamples();
    SmoothTests();
    ScanFindsNothing(values, flags, Deviation(2.0));
  }

  /**
   * The `for ... else` search of `latest_is_anomalous`: the index of the first
   * sample failing the deviation test, or `|samples|` when none does.
   */
  method FirstFailing(samples: seq<int>, test: Test) returns (k: nat)
    ensures k <= |samples|
    ensures k < |samples| ==> FirstExceeding(samples, test, 0) == Some(k)
    ensures k == |samples| ==> FirstExceeding(samples, test, 0) == None
  {
    k := 0;
    while k < |samples| && !test(samples[k], samples)
      invariant 0 <= k <= |samples|
      invariant FirstExceeding(samples, test, k) == FirstExceeding(samples, test, 0)
    {
      k := k + 1;
    }
  }

  /**
   * The `while True` loop of `latest_is_anomalous` over the observations and
   * their flags: returns the verdict and the flags as the loop leaves them.
   */
  method RunScan(values: seq<int>, flags0: seq<bool>, test: Test) returns (anomalous: bool, flags: seq<bool>)
    requires |values| == |flags0| > 0
    ensures Verdict(anomalous, flags) == Scan(values, flags0, test)
  {
    flags := flags0;
    while !flags[|flags| - 1]
      invariant |flags| == |values|
      invariant Scan(values, flags, test) == Scan(values, flags0, test)
      decreases CountFalse(flags)
    {
      var positions := UnflaggedIndices(flags);
      var nonAnomalies := Pick(values, positions);
      var samples := SecondDiffs(nonAnomalies);
      if samples == [] {
        ScanFindsNothing(values, flags, test);
        return false, flags;
      }
      var k := FirstFailing(samples, test);
      if k == |samples| {
        ScanFindsNothing(values, flags, test);
        return false, flags;
      }
      ScanFlagsOne(values, flags, test, k);
      flags := flags[positions[k + 2] := true];
    }
    return true, flags;
  }

  /** Storing the value a position already holds leaves the sequence as it is. */
  lemma StoreSame(s: seq<bool>, i: nat, x: bool)
    requires i < |s| && s[i] == x
    ensures s[i := x] == s
  {
  }

  // ---------------------------------------------------------------------------
  // The history (class History)
  // ---------------------------------------------------------------------------

  class History {
    /** `observations`, oldest first. */
    var values: seq<int>
    /** `anomaly_map`, as a flag per entry of `observations`. */
    var flags: seq<bool>
    const threshold: real
    const memoryDuration: int

    ghost predicate Valid()
      reads this
    {
      && |values| == |flags| > 0
      && threshold >= 0.0
      && (memoryDuration >= 1 ==> |values| <= memoryDuration)
    }

    /** A history holding the initial observation, not anomalous. */
    constructor (initial: int, threshold: real, memoryDuration: int)
      requires threshold >= 0.0
      ensures Valid()
      ensures values == [initial] && flags == [false]
      ensures this.threshold == threshold && this.memoryDuration == memoryDuration
    {
      values := [initial];
      flags := [false];
      this.threshold := threshold;
      this.memoryDuration := memoryDuration;
    }

    /** `latest_is_anomalous`: runs the scan, flagging in place, and returns its verdict. */
    method LatestIsAnomalous() returns (anomalous: bool)
      requires Valid()
      modifies this
      ensures Valid() && values == old(values)
      ensures Verdict(anomalous, flags) == Scan(old(values), old(flags), Deviation(threshold))
    {
      anomalous, flags := RunScan(values, flags, Deviation(threshold));
    }

    /**
     * `add_observation`: append the observation, unflagged, drop the oldest
     * one past `memoryDuration`, run the scan and store its verdict as the
     * newest observation's flag.
     */
    method AddObservation(value: int)
      requires Valid()
      modifies this
      ensures Valid()
      ensures values == Window.Push(old(values), value, memoryDuration)
      ensures flags == Scan(values, Window.Push(old(flags), false, memoryDuration), Deviation(threshold)).flags
    {
      Window.PushLength(values, value, memoryDuration);
      Window.PushLength(flags, false, memoryDuration);
      values := Window.Push(values, value, memoryDuration);
      flags := Window.Push(flags, false, memoryDuration);
      var anomalous := LatestIsAnomalous();
      StoreSame(flags, |flags| - 1, anomalous);
      flags := flags[|flags| - 1 := anomalous];
    }
  }
}
