/**
 What the running statistics say about the samples that were fed in: the mean loses nothing, the
 extremes are exact, and the sum of squared deviations is right up to a stated error.
 */
module Samples {
  import opened IntegerRoot
  import opened Statistics

  function Sum(xs: seq<int>): int {
    if xs == [] then 0 else Sum(xs[..|xs| - 1]) + xs[|xs| - 1]
  }

  /** The statistics after these samples, from the initial state. */
  function Feed(xs: seq<int>): (s: Stat)
    ensures s.n == |xs|
  {
    if xs == [] then EMPTY else Updated(Feed(xs[..|xs| - 1]), xs[|xs| - 1])
  }

  // ----- Mean and extremes -------------------------------------------------------------------

  /** Residue and mean together absorb exactly the difference, and the residue stays below the count. */
  lemma DriftConserves(mean: int, res: int, delta: int, n: int)
    requires n > 0 && (res == 0 || -(n - 1) < res < n - 1)
    ensures var (m, r) := Drift(mean, res, delta, n);
            && m * n + r == mean * n + res + delta
            && -n < r < n
  {
    TruncProperties(delta, n);
    var q := TruncDiv(delta, n);
    Swap(n, q);
    Distribute(mean, q, n);
    Distribute(mean + q, 1, n);
    Distribute(mean + q, -1, n);
  }

  lemma MultipleIsFar(k: int, n: nat)
    requires n > 0 && -(n as int) < k * n < n
    ensures k == 0
  {
    if k >= 1 {
      Scale(1, k, n);
    } else if k <= -1 {
      Scale(k, -1, n);
    }
  }

  /** There is one way to write a number as a multiple of `n` and a residue within `n` of `low`. */
  lemma OneResidueInWindow(m: int, r: int, m': int, r': int, n: nat, low: int)
    requires n > 0 && m * n + r == m' * n + r' && low <= r < low + n && low <= r' < low + n
    ensures m == m' && r == r'
  {
    Distribute(m, -m', n);
    assert (-m') * n == -(m' * n);
    MultipleIsFar(m - m', n);
  }

  function Min(a: int, b: int): int {
    if a < b then a else b
  }

  function Max(a: int, b: int): int {
    if a < b then b else a
  }

  /** The least residue an update can leave: a sample above the mean or on it lets the residue grow from
      where it was, and only through the count back down to zero or more; a sample below the mean does
      the same the other way around. */
  function LeastResidue(res: int, delta: int, n: int): int {
    if delta >= 0 then Min(res, 0) else Max(res, 0) - n + 1
  }

  lemma DriftStaysInWindow(mean: int, res: int, delta: int, n: int)
    requires n > 0 && -n < res < n
    ensures var (m, r) := Drift(mean, res, delta, n);
            && m * n + r == mean * n + res + delta
            && LeastResidue(res, delta, n) <= r < LeastResidue(res, delta, n) + n
  {
    TruncProperties(delta, n);
    var q := TruncDiv(delta, n);
    Swap(n, q);
    Distribute(mean, q, n);
    Distribute(mean + q, 1, n);
    Distribute(mean + q, -1, n);
  }

  /** Mean and residue after an update are determined by conservation and by the window the residue
      stays in: this is all the rounding there is. */
  lemma DriftIsDetermined(mean: int, res: int, delta: int, n: int, m: int, r: int)
    requires n > 0 && -n < res < n
    ensures Drift(mean, res, delta, n) == (m, r)
            <==> && m * n + r == mean * n + res + delta
                 && LeastResidue(res, delta, n) <= r < LeastResidue(res, delta, n) + n
  {
    DriftStaysInWindow(mean, res, delta, n);
    var (m', r') := Drift(mean, res, delta, n);
    if m * n + r == mean * n + res + delta
       && LeastResidue(res, delta, n) <= r < LeastResidue(res, delta, n) + n {
      OneResidueInWindow(m, r, m', r', n, LeastResidue(res, delta, n));
    }
  }

  /** Rounding has no preferred direction. */
  lemma DriftMirrors(mean: int, res: int, delta: int, n: int)
    requires n > 0
    ensures var (m, r) := Drift(mean, res, delta, n);
            Drift(-mean, -res, -delta, n) == (-m, -r)
  {
    TruncMirrors(delta, n);
  }

  lemma TruncMirrors(a: int, b: int)
    requires b > 0
    ensures TruncDiv(-a, b) == -TruncDiv(a, b) && TruncMod(-a, b) == -TruncMod(a, b)
  {
    Quotient(0, b, 0);
    Negate(b, TruncDiv(a, b));
  }

  function Negated(xs: seq<int>): (ys: seq<int>)
    ensures |ys| == |xs|
  {
    if xs == [] then [] else Negated(xs[..|xs| - 1]) + [-xs[|xs| - 1]]
  }

  /** The statistics of the negated samples. */
  function Mirrored(s: Stat): Stat {
    Stat(s.n, -s.min, -s.max, -s.last, -s.mean, -s.res, s.m2)
  }

  lemma UpdateMirrors(s: Stat, val: int)
    requires s.n >= 0
    ensures Updated(Mirrored(s), -val) == Mirrored(Updated(s, val))
  {
    DriftMirrors(s.mean, s.res, val - s.mean, s.n + 1);
    NegateBoth(val - s.mean, val - Updated(s, val).mean);
  }

  lemma NegateBoth(a: int, b: int)
    ensures (-a) * (-b) == a * b
  {
    Negate(-a, b);
    Swap(-a, b);
    Negate(b, a);
  }

  /** The samples `xs` are those of `front` and then `val`. */
  predicate Ends(xs: seq<int>, front: seq<int>, val: int) {
    xs != [] && front == xs[..|xs| - 1] && val == xs[|xs| - 1]
  }

  lemma FeedUnfolds(xs: seq<int>, front: seq<int>, val: int)
    requires Ends(xs, front, val)
    ensures Feed(xs) == Updated(Feed(front), val)
  {
  }

  lemma LastSampleMirrors(xs: seq<int>, front: seq<int>, ys: seq<int>, front': seq<int>, val: int)
    requires Ends(xs, front, val) && Ends(ys, front', -val)
    ensures Feed(front') == Mirrored(Feed(front)) ==> Feed(ys) == Mirrored(Feed(xs))
  {
    FeedUnfolds(xs, front, val);
    FeedUnfolds(ys, front', -val);
    UpdateMirrors(Feed(front), val);
  }

  lemma NegatedEnds(xs: seq<int>)
    requires xs != []
    ensures Ends(Negated(xs), Negated(xs[..|xs| - 1]), -xs[|xs| - 1])
  {
    PushEnds(Negated(xs[..|xs| - 1]), -xs[|xs| - 1]);
  }

  lemma PushEnds(xs: seq<int>, val: int)
    ensures Ends(xs + [val], xs, val)
  {
    assert (xs + [val])[..|xs|] == xs;
  }

  /** Feeding the negated samples gives the negated mean, residue and extremes, and the same sum of
      squared deviations. */
  lemma {:induction false} FeedMirrors(xs: seq<int>)
    ensures Feed(Negated(xs)) == Mirrored(Feed(xs))
  {
    if xs == [] {
    } else {
      var front := xs[..|xs| - 1];
      FeedMirrors(front);
      NegatedEnds(xs);
      LastSampleMirrors(xs, front, Negated(xs), Negated(front), xs[|xs| - 1]);
    }
  }

  /** The mean moves toward the sample and never past it. */
  lemma DriftGoesTowardTheSample(mean: int, res: int, delta: int, n: int)
    requires n > 0 && (res == 0 || -(n - 1) < res < n - 1)
    ensures var m := Drift(mean, res, delta, n).0;
            if delta >= 0 then mean <= m <= mean + delta else mean + delta <= m <= mean
  {
    TruncProperties(delta, n);
    QuotientIsNoLarger(delta, n, TruncDiv(delta, n), TruncMod(delta, n));
  }

  /** The quotient, with one more for a remainder, is no larger than the dividend. */
  lemma QuotientIsNoLarger(delta: int, n: int, q: int, rem: int)
    requires n > 0 && n * q + rem == delta
    requires if delta >= 0 then q >= 0 && rem >= 0 else q <= 0 && rem <= 0
    ensures if delta >= 0 then q + (if rem > 0 then 1 else 0) <= delta else q - (if rem < 0 then 1 else 0) >= delta
  {
    if delta >= 0 {
      Scale(1, n, q);
    } else {
      Scale(1, n, -q);
      Negate(n, q);
      Swap(n, -q);
    }
  }

  predicate Extremes(xs: seq<int>, lo: int, hi: int) {
    lo in xs && hi in xs && forall x <- xs :: lo <= x <= hi
  }

  /** Count, last sample and extremes are exact, and the mean with its residue holds the whole sum. */
  predicate Exact(s: Stat, xs: seq<int>) {
    && s.n == |xs|
    && s.mean * s.n + s.res == Sum(xs)
    && (if xs == [] then s == EMPTY else
          s.last == xs[|xs| - 1] && Extremes(xs, s.min, s.max) && -s.n < s.res < s.n)
  }

  lemma {:induction false} SumBounds(xs: seq<int>, lo: int, hi: int)
    requires forall x <- xs :: lo <= x <= hi
    ensures lo * |xs| <= Sum(xs) <= hi * |xs|
  {
    if xs == [] {
    } else {
      assert xs[|xs| - 1] in xs;
      var front := xs[..|xs| - 1];
      forall x | x in front ensures lo <= x <= hi {
        assert x in xs;
      }
      SumBounds(front, lo, hi);
      Swap(lo, |xs| - 1);
      Swap(lo, |xs|);
      Swap(hi, |xs| - 1);
      Swap(hi, |xs|);
      Distribute(|xs| - 1, 1, lo);
      Distribute(|xs| - 1, 1, hi);
    }
  }

  /** The integer mean lies between the extremes. */
  lemma MeanIsBetween(s: Stat, xs: seq<int>)
    requires Exact(s, xs) && xs != []
    ensures s.min <= s.mean <= s.max
  {
    SumBounds(xs, s.min, s.max);
    Distribute(s.mean, 1, s.n);
    Distribute(s.mean, -1, s.n);
    Scale(s.mean + 1, s.min, s.n);
    Scale(s.max, s.mean - 1, s.n);
  }

  lemma ExtremesGrow(xs: seq<int>, lo: int, hi: int, val: int)
    requires Extremes(xs, lo, hi)
    ensures Extremes(xs + [val], if lo > val then val else lo, if hi < val then val else hi)
  {
  }

  lemma SumOfPush(xs: seq<int>, val: int)
    ensures Sum(xs + [val]) == Sum(xs) + val
  {
    assert (xs + [val])[..|xs|] == xs;
  }

  /** One update keeps the statistics exact, moves the mean toward the sample, and never lowers the
      sum of squared deviations. */
  lemma UpdateIsExact(s: Stat, xs: seq<int>, val: int)
    requires Exact(s, xs)
    ensures Exact(Updated(s, val), xs + [val])
    ensures xs != [] ==> var m := Updated(s, val).mean;
              if val >= s.mean then s.mean <= m <= val else val <= m <= s.mean
    ensures xs == [] ==> Updated(s, val).mean == val && Updated(s, val).res == 0
    ensures Updated(s, val).m2 >= s.m2
  {
    var n, delta := s.n + 1, val - s.mean;
    DriftGoesTowardTheSample(s.mean, s.res, delta, n);
    UpdateKeepsTheSum(s, val);
    SumOfPush(xs, val);
    ProductIsNotNegative(delta, val - Updated(s, val).mean);
    if xs != [] {
      ExtremesGrow(xs, s.min, s.max, val);
    } else {
      assert xs + [val] == [val];
    }
  }

  lemma UpdateKeepsTheSum(s: Stat, val: int)
    requires s.n >= 0 && (s.res == 0 || -s.n < s.res < s.n)
    ensures var s' := Updated(s, val);
            s'.mean * s'.n + s'.res == s.mean * s.n + s.res + val && -s'.n < s'.res < s'.n
  {
    DriftConserves(s.mean, s.res, val - s.mean, s.n + 1);
    Swap(s.n, s.mean);
    Swap(s.n + 1, s.mean);
    Distribute(s.n, 1, s.mean);
  }

  lemma ProductIsNotNegative(a: int, b: int)
    ensures a >= 0 && b >= 0 ==> a * b >= 0
    ensures a <= 0 && b <= 0 ==> a * b >= 0
  {
  }

  /** After any samples: the mean and its residue hold exactly their sum, so that the mean is less
      than one away from the true mean; the extremes are exact, the mean lies between them, and the
      sum of squared deviations is not negative. */
  lemma {:induction false} FeedIsExact(xs: seq<int>)
    ensures Exact(Feed(xs), xs) && Feed(xs).m2 >= 0
    ensures xs != [] ==> Feed(xs).min <= Feed(xs).mean <= Feed(xs).max
  {
    if xs == [] {
    } else {
      var front, val := xs[..|xs| - 1], xs[|xs| - 1];
      FeedIsExact(front);
      assert xs == front + [val];
      UpdateIsExact(Feed(front), front, val);
      MeanIsBetween(Feed(xs), xs);
    }
  }

  // ----- Squared deviations ------------------------------------------------------------------

  /** The sum of the squared deviations of the samples from `c`. */
  function Deviations(xs: seq<int>, c: real): real {
    if xs == [] then 0.0
    else Deviations(xs[..|xs| - 1], c) + (xs[|xs| - 1] as real - c) * (xs[|xs| - 1] as real - c)
  }

  /** The true mean. */
  function Mean(xs: seq<int>): real
    requires xs != []
  {
    Sum(xs) as real / |xs| as real
  }

  /** The sum of squared deviations from the true mean. */
  function Spread(xs: seq<int>): real {
    if xs == [] then 0.0 else Deviations(xs, Mean(xs))
  }

  function Times(a: real, b: real): real {
    a * b
  }

  lemma Expand(a: real, b: real)
    ensures (a - b) * (a - b) == a * a - 2.0 * (a * b) + b * b
  {
  }

  lemma RealDistribute(a: real, b: real, c: real)
    ensures (a + b) * c == a * c + b * c
  {
  }

  function SumOfSquares(xs: seq<int>): real {
    if xs == [] then 0.0
    else SumOfSquares(xs[..|xs| - 1]) + Times(xs[|xs| - 1] as real, xs[|xs| - 1] as real)
  }

  /** The deviations by powers of the point they are taken from. */
  lemma {:induction false} DeviationsByPowers(xs: seq<int>, c: real)
    ensures Deviations(xs, c) == ByPowers(SumOfSquares(xs), Sum(xs) as real, |xs| as real, c)
  {
    if xs == [] {
    } else {
      var front, x := xs[..|xs| - 1], xs[|xs| - 1];
      DeviationsByPowers(front, c);
      OneMorePower(SumOfSquares(front), Sum(front) as real, |front| as real, x as real, c);
      assert |xs| as real == |front| as real + 1.0;
      assert Sum(xs) as real == Sum(front) as real + x as real;
    }
  }

  function ByPowers(squares: real, sum: real, n: real, c: real): real {
    squares - 2.0 * Times(sum, c) + Times(n, Times(c, c))
  }

  lemma OneMorePower(squares: real, sum: real, n: real, x: real, c: real)
    ensures ByPowers(squares + Times(x, x), sum + x, n + 1.0, c) == ByPowers(squares, sum, n, c) + Times(x - c, x - c)
  {
    Expand(x, c);
    RealDistribute(sum, x, c);
    RealDistribute(n, 1.0, Times(c, c));
  }

  lemma MeanTimes(xs: seq<int>, n: real, sum: real)
    requires xs != [] && n == |xs| as real && sum == Sum(xs) as real
    ensures Times(Mean(xs), n) == sum
  {
  }

  lemma MeanTimesCount(xs: seq<int>)
    requires xs != []
    ensures Times(Mean(xs), |xs| as real) == Sum(xs) as real
  {
    MeanTimes(xs, |xs| as real, Sum(xs) as real);
  }

  /** Welford's identity: a new sample adds the product of its distances from the old and from the new
      mean. */
  lemma Welford(xs: seq<int>, val: int)
    requires xs != []
    ensures Spread(xs + [val])
            == Spread(xs) + Times(val as real - Mean(xs), val as real - Mean(xs + [val]))
  {
    MeanTimesCount(xs);
    NextMeanTimesCount(xs, val);
    WelfordAbout(xs, val, Mean(xs), Mean(xs + [val]));
  }

  lemma NextMeanTimesCount(xs: seq<int>, val: int)
    ensures Times(Mean(xs + [val]), |xs| as real + 1.0) == Sum(xs) as real + val as real
  {
    SumOfPush(xs, val);
    MeanTimes(xs + [val], |xs| as real + 1.0, Sum(xs) as real + val as real);
  }

  lemma DeviationsOfPush(xs: seq<int>, val: int, c: real)
    ensures Deviations(xs + [val], c) == Deviations(xs, c) + Times(val as real - c, val as real - c)
  {
    assert (xs + [val])[..|xs|] == xs;
  }

  lemma WelfordAbout(xs: seq<int>, val: int, m: real, m': real)
    requires Times(m, |xs| as real) == Sum(xs) as real
    requires Times(m', |xs| as real + 1.0) == Sum(xs) as real + val as real
    ensures Deviations(xs + [val], m') == Deviations(xs, m) + Times(val as real - m, val as real - m')
  {
    DeviationsOfPush(xs, val, m');
    DeviationsByPowers(xs, m);
    DeviationsByPowers(xs, m');
    WelfordAlgebra(SumOfSquares(xs), Sum(xs) as real, |xs| as real, val as real, m, m');
  }

  lemma WelfordAlgebra(squares: real, sum: real, n: real, x: real, m: real, m': real)
    requires Times(m, n) == sum && Times(m', n + 1.0) == sum + x
    ensures ByPowers(squares, sum, n, m') + Times(x - m', x - m')
            == ByPowers(squares, sum, n, m) + Times(x - m, x - m')
  {
    var y := x - m';
    MeanMoves(sum, n, x, m, m');
    LinearPart(sum, n, m, m', y);
    SquarePart(n, m, m', y);
    LastPart(x, m, m');
  }

  lemma MeanMoves(sum: real, n: real, x: real, m: real, m': real)
    requires Times(m, n) == sum && Times(m', n + 1.0) == sum + x
    ensures Times(n, m' - m) == x - m'
  {
  }

  lemma LinearPart(sum: real, n: real, m: real, m': real, y: real)
    requires Times(m, n) == sum && Times(n, m' - m) == y
    ensures Times(sum, m') - Times(sum, m) == Times(m, y)
  {
    assert m * y == (m * n) * (m' - m);
  }

  lemma SquarePart(n: real, m: real, m': real, y: real)
    requires Times(n, m' - m) == y
    ensures Times(n, Times(m', m')) - Times(n, Times(m, m)) == Times(m, y) + Times(m', y)
  {
    assert m' * y == n * (m' * m') - n * (m * m');
    assert m * y == n * (m * m') - n * (m * m);
  }

  lemma LastPart(x: real, m: real, m': real)
    ensures Times(x - m', x - m') - Times(x - m, x - m') == Times(m, x - m') - Times(m', x - m')
  {
  }

  // ----- The error of the fixed-point sum ----------------------------------------------------

  lemma CastProduct(a: int, b: int)
    ensures (a * b) as real == a as real * b as real
  {
  }

  lemma CastDifference(a: int, b: int)
    ensures (a - b) as real == a as real - b as real
  {
  }

  lemma ErrorOfResidue(mean: real, m: real, res: real, n: real)
    requires n > 0.0 && mean * n == m * n + res && -n < res < n
    ensures -1.0 < mean - m < 1.0
  {
    RealDistribute(mean, -m, n);
    RealScale(1.0, mean - m, n);
    RealScale(mean - m, -1.0, n);
  }

  lemma RealScale(a: real, b: real, c: real)
    requires c > 0.0
    ensures a <= b ==> a * c <= b * c
  {
  }

  /** The integer mean is less than one away from the true mean. */
  lemma MeanError(s: Stat, xs: seq<int>)
    requires Exact(s, xs) && xs != []
    ensures -1.0 < Mean(xs) - s.mean as real < 1.0
  {
    MeanTimesCount(xs);
    CastProduct(s.mean, s.n);
    ErrorOfResidue(Mean(xs), s.mean as real, s.res as real, |xs| as real);
  }

  lemma Unscale(a: real, b: real, c: real)
    requires c > 0.0 && a * c <= b * c
    ensures a <= b
  {
    if a > b {
      StrictScale(b, a, c);
    }
  }

  lemma BetweenByScaling(mu: real, n: real, sum: real, lo: real, hi: real)
    requires n > 0.0 && Times(lo, n) <= sum <= Times(hi, n) && Times(mu, n) == sum
    ensures lo <= mu <= hi
  {
    Unscale(lo, mu, n);
    Unscale(mu, hi, n);
  }

  lemma CastBounds(lo: int, n: int, sum: int, hi: int)
    requires lo * n <= sum <= hi * n
    ensures Times(lo as real, n as real) <= sum as real <= Times(hi as real, n as real)
  {
    CastProduct(lo, n);
    CastProduct(hi, n);
  }

  lemma SumBoundsAsReals(xs: seq<int>, lo: int, hi: int)
    requires xs != [] && Extremes(xs, lo, hi)
    ensures Times(lo as real, |xs| as real) <= Sum(xs) as real <= Times(hi as real, |xs| as real)
  {
    SumBounds(xs, lo, hi);
    CastBounds(lo, |xs|, Sum(xs), hi);
  }

  lemma TrueMeanIsBetween(xs: seq<int>, lo: int, hi: int)
    requires xs != [] && Extremes(xs, lo, hi)
    ensures lo as real <= Mean(xs) <= hi as real
  {
    MeanTimesCount(xs);
    AnyMeanIsBetween(xs, Mean(xs), lo, hi);
  }

  lemma AnyMeanIsBetween(xs: seq<int>, mu: real, lo: int, hi: int)
    requires xs != [] && Extremes(xs, lo, hi) && Times(mu, |xs| as real) == Sum(xs) as real
    ensures lo as real <= mu <= hi as real
  {
    SumBoundsAsReals(xs, lo, hi);
    BetweenByScaling(mu, |xs| as real, Sum(xs) as real, lo as real, hi as real);
  }

  lemma StrictScale(a: real, b: real, c: real)
    requires c > 0.0 && a < b
    ensures a * c < b * c
  {
  }

  /** Two factors within `r`, each off by less than one, give a product off by at most 2r+1. */
  lemma ProductError(a: real, b: real, e: real, f: real, r: real)
    requires -r <= a <= r && -r <= b <= r && -1.0 < e < 1.0 && -1.0 < f < 1.0
    ensures -(2.0 * r + 1.0) <= (a + e) * (b + f) - a * b <= 2.0 * r + 1.0
  {
    ProductWithin(a, f, r, 1.0);
    ProductWithin(e, b, 1.0, r);
    ProductWithin(e, f, 1.0, 1.0);
    assert (a + e) * (b + f) == a * b + a * f + e * b + e * f;
  }

  lemma ProductWithin(a: real, b: real, r: real, s: real)
    requires -r <= a <= r && -s <= b <= s
    ensures -(r * s) <= a * b <= r * s
  {
    assert (r - a) * (s + b) >= 0.0 && (r + a) * (s - b) >= 0.0;
    assert (r - a) * (s - b) >= 0.0 && (r + a) * (s + b) >= 0.0;
  }

  /** The largest difference between two samples. */
  function Range(s: Stat): real {
    (s.max - s.min) as real
  }

  /** What an update adds to the fixed-point sum is the product of the distances from the two integer
      means. */
  lemma UpdateAdds(s: Stat, val: int)
    requires s.n >= 0
    ensures var s' := Updated(s, val);
            (s'.m2 - s.m2) as real
            == Times(val as real - s.mean as real, val as real - s'.mean as real)
  {
    CastProduct(val - s.mean, val - Updated(s, val).mean);
  }

  /** The error of one step, with the true means `mu`, `mu'` and the integer means `m`, `m'`. */
  lemma StepError(x: real, mu: real, mu': real, m: real, m': real, r: real)
    requires -r <= x - mu <= r && -r <= x - mu' <= r && -1.0 < mu - m < 1.0 && -1.0 < mu' - m' < 1.0
    ensures -(2.0 * r + 1.0) <= Times(x - m, x - m') - Times(x - mu, x - mu') <= 2.0 * r + 1.0
  {
    ProductError(x - mu, x - mu', mu - m, mu' - m', r);
  }

  lemma MeansAreClose(s: Stat, xs: seq<int>, val: int, s': Stat, xs': seq<int>)
    requires Exact(s, xs) && xs != [] && s' == Updated(s, val) && xs' == xs + [val]
    ensures -1.0 < Mean(xs) - s.mean as real < 1.0 && -1.0 < Mean(xs') - s'.mean as real < 1.0
    ensures -Range(s') <= val as real - Mean(xs) <= Range(s')
    ensures -Range(s') <= val as real - Mean(xs') <= Range(s')
  {
    UpdateIsExact(s, xs, val);
    MeanError(s, xs);
    MeanError(s', xs');
    TrueMeanIsBetween(xs, s.min, s.max);
    TrueMeanIsBetween(xs', s'.min, s'.max);
    assert val in xs';
  }

  lemma BoundGrows(n: real, r: real, r': real)
    requires n >= 1.0 && r <= r'
    ensures (n - 1.0) * (2.0 * r + 1.0) + (2.0 * r' + 1.0) <= n * (2.0 * r' + 1.0)
  {
    var a, b := 2.0 * r + 1.0, 2.0 * r' + 1.0;
    assert (n - 1.0) * (b - a) >= 0.0;
    assert (n - 1.0) * (b - a) == n * b - b - (n - 1.0) * a;
  }

  lemma OneSample(val: int)
    ensures Updated(EMPTY, val).m2 == 0 && Spread([val]) == 0.0
  {
    UpdateIsExact(EMPTY, [], val);
    assert [val][..0] == [];
    assert Sum([val]) == val;
    assert Mean([val]) == val as real;
    assert Deviations([val], val as real) == 0.0;
  }

  /** `d` is at most `bound` in size. */
  predicate Near(d: real, bound: real) {
    -bound <= d <= bound
  }

  lemma ErrorsAdd(d: real, step: real, bound: real, more: real, total: real)
    requires Near(d, bound) && Near(step, more) && bound + more <= total
    ensures Near(d + step, total)
  {
  }

  /** How far the fixed-point sum may be off after `n` samples. */
  function ErrorBound(s: Stat, n: int): real {
    Allowance(n as real - 1.0, Range(s))
  }

  /** The errors of `k` steps with samples within `r` of each other. */
  function Allowance(k: real, r: real): real {
    k * (2.0 * r + 1.0)
  }

  /** The fixed-point sum is within (n-1)*(2*(max-min)+1) of the exact sum of squared deviations. */
  lemma {:induction false} SpreadIsTracked(xs: seq<int>)
    requires xs != []
    ensures Near(Feed(xs).m2 as real - Spread(xs), ErrorBound(Feed(xs), |xs|))
  {
    var front, val := xs[..|xs| - 1], xs[|xs| - 1];
    if front == [] {
      assert xs == [val];
      OneSample(val);
    } else {
      FeedIsExact(front);
      SpreadIsTracked(front);
      OneMoreSample(Feed(front), front, val);
      assert xs == front + [val];
    }
  }

  lemma OneMoreSample(s: Stat, xs: seq<int>, val: int)
    requires Exact(s, xs) && xs != [] && Near(s.m2 as real - Spread(xs), ErrorBound(s, |xs|))
    ensures Near(Updated(s, val).m2 as real - Spread(xs + [val]), ErrorBound(Updated(s, val), |xs| + 1))
  {
    var s', xs' := Updated(s, val), xs + [val];
    UpdateIsExact(s, xs, val);
    MeansAreClose(s, xs, val, s', xs');
    UpdateAdds(s, val);
    Welford(xs, val);
    StatError(s, s', |xs|, val, Mean(xs), Mean(xs'), Spread(xs), Spread(xs'));
  }

  lemma StatError(s: Stat, s': Stat, n: nat, val: int, mu: real, mu': real, spread: real, spread': real)
    requires n > 0 && s'.min <= s.min && s.max <= s'.max
    requires (s'.m2 - s.m2) as real == Times(val as real - s.mean as real, val as real - s'.mean as real)
    requires spread' == spread + Times(val as real - mu, val as real - mu')
    requires -1.0 < mu - s.mean as real < 1.0 && -1.0 < mu' - s'.mean as real < 1.0
    requires -Range(s') <= val as real - mu <= Range(s') && -Range(s') <= val as real - mu' <= Range(s')
    requires Near(s.m2 as real - spread, ErrorBound(s, n))
    ensures Near(s'.m2 as real - spread', ErrorBound(s', n + 1))
  {
    assert (n + 1) as real - 1.0 == n as real;
    CastDifference(s'.m2, s.m2);
    OneMoreError(val as real, mu, mu', s.mean as real, s'.mean as real,
                 s.m2 as real, s'.m2 as real, spread, spread', n as real, Range(s), Range(s'));
  }

  /** The numbers behind one more sample: the sums grow by the products of the distances from the
      integer means and from the true means. */
  lemma OneMoreError(x: real, mu: real, mu': real, m: real, m': real,
                     sum: real, sum': real, spread: real, spread': real, n: real, r: real, r': real)
    requires sum' - sum == Times(x - m, x - m') && spread' == spread + Times(x - mu, x - mu')
    requires Near(x - mu, r') && Near(x - mu', r') && -1.0 < mu - m < 1.0 && -1.0 < mu' - m' < 1.0
    requires n >= 1.0 && r <= r' && Near(sum - spread, Allowance(n - 1.0, r))
    ensures Near(sum' - spread', Allowance(n, r'))
  {
    StepError(x, mu, mu', m, m', r');
    BoundGrows(n, r, r');
    ErrorsAdd(sum - spread, Times(x - m, x - m') - Times(x - mu, x - mu'),
              Allowance(n - 1.0, r), 2.0 * r' + 1.0, Allowance(n, r'));
  }

  // ----- The standard deviation --------------------------------------------------------------

  /** A sum with quotient `q`, and the squares around `q`, in steps of `n`. */
  lemma SquaresAroundSum(m2: nat, n: nat, q: nat, low: nat, high: nat)
    requires q * n <= m2 < (q + 1) * n == q * n + n && low <= q + 1 <= high
    ensures low * n <= m2 + n && m2 < high * n
  {
    Scale(low, q + 1, n);
    Scale(q + 1, high, n);
  }

  /** The square of the deviation times the count is the fixed-point sum, up to the rounding of the
      root. */
  lemma StdDevOfSum(s: Stat)
    requires s.n > 0 && s.m2 >= 0 && TruncDiv(s.m2, s.n) < UINT_LIMIT
    ensures var dev := StdDev(s);
            dev * dev * s.n <= s.m2 + s.n && s.m2 < (dev + 1) * (dev + 1) * s.n
  {
    var q := TruncDiv(s.m2, s.n);
    QuotientShrinks(s.m2, s.n);
    SmallRemainder(q, UINT_LIMIT);
    ComputedRootBounds(q);
    QuotientBounds(s.m2, s.n);
    var dev := StdDev(s);
    SquaresAroundSum(s.m2, s.n, q, dev * dev, (dev + 1) * (dev + 1));
  }

  lemma SandwichedSpread(m2: int, low: int, n: int, high: int, spread: real, bound: real)
    requires low <= m2 + n && m2 < high && Near(m2 as real - spread, bound)
    ensures low as real - n as real - bound <= spread < high as real + bound
  {
  }

  /** After any samples whose variance fits into 32 bits, the exact sum of squared deviations lies
      between the squares of the returned deviation and of the next integer, times the count, up to
      the error of the fixed-point sum and the rounding of the root. */
  lemma StdDevIsTracked(xs: seq<int>)
    requires xs != []
    ensures TruncDiv(Feed(xs).m2, |xs|) < UINT_LIMIT ==>
              var dev, n, bound := StdDev(Feed(xs)), |xs|, ErrorBound(Feed(xs), |xs|);
              (dev * dev * n) as real - n as real - bound <= Spread(xs)
              < ((dev + 1) * (dev + 1) * n) as real + bound
  {
    var s := Feed(xs);
    FeedIsExact(xs);
    SpreadIsTracked(xs);
    if TruncDiv(s.m2, s.n) < UINT_LIMIT {
      StdDevOfSum(s);
      var dev := StdDev(s);
      SandwichedSpread(s.m2, dev * dev * s.n, s.n, (dev + 1) * (dev + 1) * s.n, Spread(xs), ErrorBound(s, s.n));
    }
  }

  // ----- Machine integers --------------------------------------------------------------------

  predicate Fits32(x: int) {
    -0x8000_0000 <= x < 0x8000_0000
  }

  lemma SmallProduct(a: int, b: int, r: int)
    requires -r <= a <= r && -r <= b <= r
    ensures -(r * r) <= a * b <= r * r
  {
    ProductIsNotNegative(r - a, r + b);
    ProductIsNotNegative(r + a, r - b);
    ProductIsNotNegative(r - a, r - b);
    ProductIsNotNegative(r + a, r + b);
    assert (r - a) * (r + b) + (r + a) * (r - b) == 2 * (r * r) - 2 * (a * b);
    assert (r - a) * (r - b) + (r + a) * (r + b) == 2 * (r * r) + 2 * (a * b);
  }

  /** For 32-bit samples that lie within 46340 of each other, and at most 2^30 of them, every value an
      update computes on the way fits into 32 bits, so that the unbounded integers used here agree
      with the machine's. */
  lemma UpdateFits(s: Stat, xs: seq<int>, val: int)
    requires Exact(s, xs) && |xs| < 0x4000_0000
    requires var s' := Updated(s, val); Fits32(s'.min) && Fits32(s'.max) && s'.max - s'.min <= 46340
    ensures var s' := Updated(s, val);
            var delta := val - s.mean;
            && Fits32(s'.n) && Fits32(delta) && Fits32(s'.mean) && Fits32(s.mean + TruncDiv(delta, s'.n))
            && Fits32(s.res + TruncMod(delta, s'.n)) && Fits32(val - s'.mean)
            && Fits32(delta * (val - s'.mean))
  {
    var s', delta := Updated(s, val), val - s.mean;
    UpdateIsExact(s, xs, val);
    MeanIsBetween(s', xs + [val]);
    TruncProperties(delta, s'.n);
    assert val in xs + [val];
    if xs != [] {
      MeanIsBetween(s, xs);
      SmallProduct(delta, val - s'.mean, 46340);
    }
  }
}
