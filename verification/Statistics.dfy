/**
 Running statistics in fixed point: count, extremes, mean with its residue, and the sum of squared
 deviations, each brought up to date as a sample comes.
 */
module Statistics {
  import opened IntegerRoot

  /** Division and remainder as the source has them: toward zero, with the sign of the dividend. */
  function TruncDiv(a: int, b: int): int
    requires b > 0
  {
    if a >= 0 then a / b else -((-a) / b)
  }

  function TruncMod(a: int, b: int): int
    requires b > 0
  {
    a - b * TruncDiv(a, b)
  }

  lemma Negate(a: int, b: int)
    ensures a * -b == -(a * b)
  {
  }

  lemma TruncProperties(a: int, b: int)
    requires b > 0
    ensures b * TruncDiv(a, b) + TruncMod(a, b) == a
    ensures -b < TruncMod(a, b) < b
    ensures a >= 0 ==> TruncDiv(a, b) >= 0 && TruncMod(a, b) >= 0
    ensures a <= 0 ==> TruncDiv(a, b) <= 0 && TruncMod(a, b) <= 0
  {
    var size: nat := if a >= 0 then a else -a;
    var q := size / b;
    QuotientBounds(size, b);
    Swap(b, q);
    Negate(b, q);
    assert TruncDiv(a, b) == if a >= 0 then q else -q;
    assert b * TruncDiv(a, b) == if a >= 0 then b * q else -(b * q);
  }

  datatype Stat = Stat(n: int, max: int, min: int, last: int, mean: int, res: int, m2: int)

  const EMPTY := Stat(0, 0, 0, 0, 0, 0, 0)

  /** Mean and residue after a sample that differs from the mean by `delta`; the residue stays
      smaller than the count. */
  function Drift(mean: int, res: int, delta: int, n: int): (int, int)
    requires n > 0
  {
    var m, r := mean + TruncDiv(delta, n), res + TruncMod(delta, n);
    if r >= n then (m + 1, r - n) else if r <= -n then (m - 1, r + n) else (m, r)
  }

  function Updated(s: Stat, val: int): Stat
    requires s.n >= 0
  {
    var n := s.n + 1;
    var delta := val - s.mean;
    var (mean, res) := Drift(s.mean, s.res, delta, n);
    Stat(n, if s.n == 0 || s.max < val then val else s.max, if s.n == 0 || s.min > val then val else s.min,
         val, mean, res, s.m2 + delta * (val - mean))
  }

  class MathStat {
    var n: int
    var max: int
    var min: int
    var last: int
    var mean: int
    var meanRes: int
    var m2: int

    constructor ()
      ensures n == max == min == last == mean == meanRes == m2 == 0
      ensures View() == EMPTY
    {
      n, max, min, last, mean, meanRes, m2 := 0, 0, 0, 0, 0, 0, 0;
    }

    function View(): Stat
      reads this
    {
      Stat(n, max, min, last, mean, meanRes, m2)
    }

    method Update(val: int)
      requires n >= 0
      modifies this
      ensures View() == Updated(old(View()), val)
      ensures n == old(n) + 1 && last == val
    {
      last := val;
      n := n + 1;
      if n != 1 {
        if min > val {
          min := val;
        }
        if max < val {
          max := val;
        }
      } else {
        min := val;
        max := val;
      }
      var delta := val - mean;
      mean := mean + TruncDiv(delta, n);
      meanRes := meanRes + TruncMod(delta, n);
      if meanRes >= n {
        mean := mean + 1;
        meanRes := meanRes - n;
      } else if meanRes <= -n {
        mean := mean - 1;
        meanRes := meanRes + n;
      }
      m2 := m2 + delta * (val - mean);
    }

    /** The standard deviation: the integer root of the variance, cast to 32 unsigned bits. */
    method GetStdDev() returns (dev: nat)
      requires n >= 0
      ensures n == 0 ==> dev == 0
      ensures n > 0 ==> dev == ComputedRoot(TruncDiv(m2, n) % UINT_LIMIT)
      ensures dev == StdDev(View())
    {
      if n == 0 {
        return 0;
      }
      ghost var rounds;
      dev, rounds := Isqrt(TruncDiv(m2, n) % UINT_LIMIT);
    }

    /** The product is computed in 32 unsigned bits. */
    method SetStdDev(dev: nat)
      requires 0 <= n < 0x8000_0000 && dev < UINT_LIMIT
      modifies this`n, this`m2
      ensures n == (if old(n) == 0 then 1 else old(n)) && m2 == (dev * dev * n) % UINT_LIMIT
    {
      if n == 0 {
        n := 1;
      }
      var square := (dev * dev) % UINT_LIMIT;
      m2 := (square * n) % UINT_LIMIT;
      RemainderOfProduct(dev * dev, n, UINT_LIMIT);
    }
  }

  /** The root that the iteration finds of the variance in 32 unsigned bits; 0 without samples. */
  function StdDev(s: Stat): nat
    requires s.n >= 0
  {
    if s.n == 0 then 0 else ComputedRoot(TruncDiv(s.m2, s.n) % UINT_LIMIT)
  }

  lemma RemainderOfProduct(a: nat, b: nat, m: nat)
    requires m > 0
    ensures ((a % m) * b) % m == (a * b) % m
  {
    var q := a / m;
    Distribute(q * m, a % m, b);
    assert a * b == (q * b) * m + (a % m) * b;
    QuotientOfSum(q * b, (a % m) * b, m);
    Distribute(q * b, ((a % m) * b) / m, m);
  }

  /** What `GetStdDev` returns after `SetStdDev(dev)` with `n` samples. */
  function SetThenGet(dev: nat, n: nat): nat
    requires n > 0
  {
    StdDev(EMPTY.(n := n, m2 := (dev * dev * n) % UINT_LIMIT))
  }

  lemma Outgrows(q: int, p: nat, x: nat)
    requires p > 0 && q * p <= x < q * p + p
    ensures 0 <= q <= x
  {
    Distribute(q, 1, p);
    Scale(q + 1, 0, p);
    if q > 0 {
      Scale(1, p, q);
      Swap(p, q);
    }
  }

  lemma QuotientShrinks(x: nat, p: nat)
    requires p > 0
    ensures 0 <= x / p <= x
  {
    QuotientBounds(x, p);
    Outgrows(x / p, p, x);
  }

  lemma VarianceComesBack(square: nat, n: nat)
    requires n > 0
    ensures (square * n) / n == square
  {
    QuotientOfSum(square, 0, n);
  }

  lemma SmallRemainder(x: nat, m: nat)
    requires x < m
    ensures x % m == x
  {
  }

  /** What comes back of a variance that is stored as `square * n` in 32 bits. */
  lemma VarianceIsKeptOrLost(square: nat, n: nat)
    requires 0 < n < 0x8000_0000
    ensures var v := TruncDiv((square * n) % UINT_LIMIT, n) % UINT_LIMIT;
            if square * n < UINT_LIMIT then v == square else v + 2 <= square
  {
    var stored := (square * n) % UINT_LIMIT;
    QuotientShrinks(stored, n);
    SmallRemainder(stored / n, UINT_LIMIT);
    if square * n < UINT_LIMIT {
      SmallRemainder(square * n, UINT_LIMIT);
      VarianceComesBack(square, n);
    } else {
      LostBits(square, n);
    }
  }

  /** The deviation that was set comes back exactly if its square times the count fits into 32 bits. */
  lemma StdDevComesBack(dev: nat, n: nat)
    requires dev < UINT_LIMIT && 0 < n < 0x8000_0000
    ensures SetThenGet(dev, n) == dev <==> dev * dev * n < UINT_LIMIT
  {
    VarianceIsKeptOrLost(dev * dev, n);
    if dev * dev * n < UINT_LIMIT {
      ExactOnSquares(dev);
    } else {
      RootIsBelow(TruncDiv((dev * dev * n) % UINT_LIMIT, n) % UINT_LIMIT, dev);
    }
  }

  lemma LostBits(square: nat, n: nat)
    requires 0 < n < 0x8000_0000 && square * n >= UINT_LIMIT
    ensures ((square * n) % UINT_LIMIT) / n + 2 <= square
  {
    var stored := (square * n) % UINT_LIMIT;
    assert stored <= square * n - UINT_LIMIT;
    assert (square - 2) * n == square * n - 2 * n;
    QuotientBounds(stored, n);
    Scale(square - 1, stored / n, n);
    Distribute(square, -1, n);
  }

  lemma RootIsBelow(v: nat, dev: nat)
    requires v + 2 <= dev * dev
    ensures ComputedRoot(v) < dev
  {
    SquareGrows(dev, Root(v));
    SquareGrows(dev, Root(v) + 1);
  }
}
