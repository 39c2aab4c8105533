/**
 The integer square root: a power-of-two seed and the Babylonian iteration, with a stopping test
 that accepts an iterate equal to the previous one or one below it.
 */
module IntegerRoot {

  const UINT_LIMIT := 0x1_0000_0000

  /** `s` is the floor of the square root of `i`. */
  predicate IsRoot(s: nat, i: nat) {
    s * s <= i < (s + 1) * (s + 1)
  }

  function Root(i: nat): (s: nat)
    ensures IsRoot(s, i)
  {
    if i == 0 then 0
    else
      var s := Root(i - 1);
      if (s + 1) * (s + 1) <= i then s + 1 else s
  }

  // ----- Multiplication and division ---------------------------------------------------------

  lemma Scale(a: int, b: int, c: nat)
    ensures a <= b ==> a * c <= b * c
  {
  }

  lemma Distribute(a: int, b: int, c: int)
    ensures (a + b) * c == a * c + b * c
  {
  }

  lemma SquareGrows(a: nat, b: nat)
    ensures a <= b ==> a * a <= b * b
  {
    Scale(a, b, a);
    Scale(a, b, b);
  }

  lemma QuotientBounds(x: int, p: nat)
    requires p > 0
    ensures (x / p) * p <= x < (x / p + 1) * p == (x / p) * p + p
  {
    Distribute(x / p, 1, p);
  }

  lemma Quotient(x: int, p: nat, q: int)
    requires p > 0 && q * p <= x < (q + 1) * p
    ensures x / p == q
  {
    QuotientBounds(x, p);
    Scale(x / p + 1, q, p);
    Scale(q + 1, x / p, p);
  }

  lemma QuotientOfSum(a: int, b: int, p: nat)
    requires p > 0
    ensures (a * p + b) / p == a + b / p
  {
    QuotientBounds(b, p);
    Distribute(a, b / p, p);
    Distribute(a + b / p, 1, p);
    Quotient(a * p + b, p, a + b / p);
  }

  lemma QuotientOfQuotient(x: int, p: nat)
    requires p > 0
    ensures (x / p) / 2 == x / (2 * p)
  {
    var c := x / p;
    var h := c / 2;
    QuotientBounds(x, p);
    Scale(2 * h, c, p);
    Scale(c + 1, 2 * h + 2, p);
    Doubled(h, p);
    Doubled(h + 1, p);
    Quotient(x, 2 * p, h);
  }

  lemma Doubled(h: int, p: int)
    ensures (2 * h) * p == h * (2 * p)
  {
  }

  lemma RootIsUnique(s: nat, i: nat)
    requires IsRoot(s, i)
    ensures s == Root(i)
  {
    SquareGrows(s + 1, Root(i));
    SquareGrows(Root(i) + 1, s);
  }

  function Pow2(k: nat): (p: nat)
    ensures p >= 1
  {
    if k == 0 then 1 else 2 * Pow2(k - 1)
  }

  /** The exponent of the seed: half the bits of `i`. */
  function SeedExponent(i: nat): nat {
    if i < 4 then 0 else 1 + SeedExponent(i / 4)
  }

  // ----- One round ---------------------------------------------------------------------------

  function Next(i: nat, p: nat): nat
    requires p > 0
  {
    (p + i / p) / 2
  }

  predicate Stops(p: nat, r: nat) {
    p == r || p == r + 1
  }

  lemma DifferenceOfSquares(a: int, b: int)
    ensures (a - b) * (a + b) == a * a - b * b
  {
    Distribute(a, -b, a + b);
  }

  lemma SquareIsNotNegative(a: int)
    ensures a * a >= 0
  {
  }

  /** An iterate is never below the root. */
  lemma NextIsNotBelow(i: nat, s: nat, p: nat)
    requires IsRoot(s, i) && p > 0
    ensures Next(i, p) >= s
  {
    QuotientBounds(i, p);
    Scale(i / p + 1, 2 * s - p, p);
    DifferenceOfSquares(s, s - p);
    SquareIsNotNegative(s - p);
    Swap(2 * s - p, p);
  }

  lemma Swap(a: int, b: int)
    ensures a * b == b * a
  {
  }

  /** Above the root, the distance to it at least halves. */
  lemma NextHalvesTheGap(i: nat, s: nat, p: nat)
    requires IsRoot(s, i) && p > s
    ensures 2 * (Next(i, p) - s) <= p - s
  {
    QuotientBounds(i, p);
    Scale(s + 1, i / p, p);
    Scale(s + 1, p, s + 1);
    Swap(s + 1, p);
  }

  lemma SettledBounds(i: nat, q: nat, r: nat)
    requires q * r <= i < (q + 1) * r && r <= q <= r + 1
    ensures r * r <= i < (r + 1) * (r + 1)
  {
    Scale(r, q, r);
    Scale(q + 1, r + 2, r);
    Distribute(r, 2, r);
    Distribute(r, 1, r + 1);
    Swap(r, r + 1);
    Distribute(r, 1, r);
  }

  lemma SteppedBounds(i: nat, q: nat, r: nat)
    requires q * (r + 1) <= i < (q + 1) * (r + 1) && r - 1 <= q <= r
    ensures r * r - 1 <= i < (r + 1) * (r + 1)
  {
    Scale(r - 1, q, r + 1);
    Scale(q + 1, r + 1, r + 1);
    DifferenceOfSquares(r, 1);
  }

  /** Whatever the iteration stops at is the root, or one more if `i` is one below a square. */
  lemma StopBounds(i: nat, p: nat)
    requires p > 0 && Stops(p, Next(i, p))
    ensures var r := Next(i, p); r * r <= i + 1 && i < (r + 1) * (r + 1)
  {
    var q, r := i / p, Next(i, p);
    QuotientBounds(i, p);
    if p == r {
      SettledBounds(i, q, r);
    } else {
      SteppedBounds(i, q, r);
    }
  }

  // ----- One below a square ------------------------------------------------------------------

  /** How far above `t` the round after an iterate `t + e` is, when `i` is one below `t * t`. */
  function NextError(t: nat, e: int): int
    requires t + e > 0
  {
    (e * e - 1) / (2 * (t + e))
  }

  lemma ErrorAfterRound(t: nat, e: int)
    requires t > 0 && t + e > 0
    ensures t * t >= 1 && Next(t * t - 1, t + e) == t + NextError(t, e)
  {
    var p := t + e;
    SquareGrows(1, t);
    DifferenceOfSquares(t, e);
    QuotientOfSum(t - e, e * e - 1, p);
    assert (p + (t * t - 1) / p) / 2 == (2 * t + (e * e - 1) / p) / 2;
    QuotientOfQuotient(e * e - 1, p);
  }

  lemma ErrorShrinks(t: nat, e: nat)
    requires t > 0 && e >= 2
    ensures 0 <= NextError(t, e) <= e - 2
  {
    var d := 2 * (t + e);
    SquareGrows(2, e);
    QuotientBounds(e * e - 1, d);
    Scale(e - 1, NextError(t, e), d);
    Scale(2 * (e + 1), d, e - 1);
    Swap(e - 1, d);
    Doubled(e + 1, e - 1);
    DifferenceOfSquares(e, 1);
    Swap(e - 1, e + 1);
    Scale(NextError(t, e) + 1, 0, d);
  }

  /** The errors, from `e` on, reach exactly 1 before they vanish. */
  predicate ReachesOne(t: nat, e: nat)
    requires t > 0
    decreases e
  {
    if e >= 2 then
      ErrorShrinks(t, e);
      ReachesOne(t, NextError(t, e))
    else e == 1
  }

  /** From a seed below `t` an iterate lands exactly one above `t`. */
  predicate SeedOvershoots(t: nat, seed: nat)
    requires 0 < seed < t
  {
    NextError(t, seed - t) > 0 && ReachesOne(t, NextError(t, seed - t))
  }

  predicate BelowSquare(i: nat, s: nat) {
    i + 1 == (s + 1) * (s + 1)
  }

  predicate OvershootsFrom(i: nat, s: nat, seed: nat) {
    BelowSquare(i, s) && 0 < seed <= s && SeedOvershoots(s + 1, seed)
  }

  /** `i` is one below a square, and from the seed an iterate lands one above the root of that
      square. */
  predicate Overshoots(i: nat) {
    OvershootsFrom(i, Root(i), Pow2(SeedExponent(i)))
  }

  // ----- The seed ----------------------------------------------------------------------------

  /** The floor of the square root, or one more on the inputs where the iteration misses it. */
  function ComputedRoot(i: nat): nat {
    Root(i) + if Overshoots(i) then 1 else 0
  }

  /** The seed is the power of two whose square lies within a factor of four below `i`. */
  lemma {:induction false} SeedBounds(i: nat)
    ensures var seed := Pow2(SeedExponent(i)); (i > 0 ==> seed * seed <= i) && i < 4 * (seed * seed)
  {
    if i < 4 {
    } else {
      SeedBounds(i / 4);
      var half := Pow2(SeedExponent(i / 4));
      assert (2 * half) * (2 * half) == 4 * (half * half);
    }
  }

  method Seed(i: nat) returns (res: nat)
    ensures res == Pow2(SeedExponent(i))
  {
    res := 1;
    var prev: nat := i / 4;
    ghost var done: nat := 0;
    while prev > 0
      invariant done + SeedExponent(4 * prev) == SeedExponent(i)
      invariant res == Pow2(done)
    {
      prev := prev / 4;
      res := res * 2;
      done := done + 1;
    }
  }

  // ----- The iteration -----------------------------------------------------------------------

  /** Where the iteration can be after `n` rounds, with the seed at 2^k and the root at `s`: at the
      seed, above the root by less than 2^(k+1-(n-1)), or at the root. */
  predicate OnTrack(i: nat, s: nat, k: nat, n: nat, p: nat) {
    if n == 0 then p == Pow2(k)
    else if p > s then (p - s) * Pow2(n - 1) < Pow2(k + 1)
    else p == s && n <= k + 2 && !BelowSquare(i, s)
  }

  lemma {:induction false} Pow2Grows(a: nat, b: nat)
    ensures a <= b ==> Pow2(a) <= Pow2(b)
  {
    if a >= b {
    } else {
      Pow2Grows(a, b - 1);
    }
  }

  lemma GapBoundsRounds(gap: nat, n: nat, k: nat)
    requires gap >= 1 && gap * Pow2(n) < Pow2(k)
    ensures n < k
  {
    Scale(1, gap, Pow2(n));
    Pow2Grows(k, n);
  }

  lemma OnTrackRounds(i: nat, s: nat, k: nat, n: nat, p: nat)
    requires OnTrack(i, s, k, n, p)
    ensures n <= k + if p == s then 2 else 1
  {
    if n > 0 && p > s {
      GapBoundsRounds(p - s, n - 1, k + 1);
    }
  }

  lemma SeedIsNotAbove(i: nat, s: nat)
    requires i > 0 && IsRoot(s, i)
    ensures 0 < Pow2(SeedExponent(i)) <= s
  {
    SeedBounds(i);
    SquareGrows(s + 1, Pow2(SeedExponent(i)));
  }

  lemma FirstRound(i: nat, p: nat)
    requires p > 0 && i < 4 * (p * p)
    ensures Next(i, p) < 3 * p
  {
    QuotientBounds(i, p);
    Scale(4 * p, i / p, p);
  }

  /** One below a square, only the iterate one above the root leads to the root. */
  lemma BelowSquareSkipsRoot(i: nat, s: nat, p: nat)
    requires p > 0 && BelowSquare(i, s) && p != s + 1
    ensures Next(i, p) >= s + 1
  {
    var e := p - s - 1;
    ErrorAfterRound(s + 1, e);
    SquareGrows(1, if e > 0 then e else -e);
    QuotientBounds(e * e - 1, 2 * p);
    Scale(NextError(s + 1, e) + 1, 0, 2 * p);
  }

  /** Elsewhere the root leads to itself. */
  lemma RootStays(i: nat, s: nat)
    requires s > 0 && IsRoot(s, i) && !BelowSquare(i, s)
    ensures Next(i, s) == s
  {
    NextIsNotBelow(i, s, s);
    QuotientBounds(i, s);
    Scale(s + 2, i / s, s);
    DifferenceOfSquares(s + 1, 1);
    Swap(s, s + 2);
  }

  lemma RoundStaysOnTrack(i: nat, s: nat, n: nat, p: nat)
    requires i > 0 && IsRoot(s, i)
    requires p > 0 && OnTrack(i, s, SeedExponent(i), n, p) && !Stops(p, Next(i, p))
    ensures OnTrack(i, s, SeedExponent(i), n + 1, Next(i, p)) && Next(i, p) > 0
  {
    var k, r := SeedExponent(i), Next(i, p);
    NextIsNotBelow(i, s, p);
    OnTrackRounds(i, s, k, n, p);
    SeedIsNotAbove(i, s);
    if BelowSquare(i, s) {
      if p != s + 1 {
        BelowSquareSkipsRoot(i, s, p);
      }
    } else {
      RootStays(i, s);
    }
    if n == 0 {
      SeedBounds(i);
      FirstRound(i, p);
    } else if p > s {
      NextHalvesTheGap(i, s, p);
      Scale(2 * (r - s), p - s, Pow2(n - 1));
      Doubled(r - s, Pow2(n - 1));
    }
  }

  /** Once the first round is done, the iterate tells whether the result will overshoot. */
  predicate Foretells(i: nat, s: nat, n: nat, p: nat, overshoots: bool) {
    n > 0 && BelowSquare(i, s) ==> p > s && (ReachesOne(s + 1, p - s - 1) <==> overshoots)
  }

  lemma FirstRoundForetells(i: nat, s: nat, seed: nat)
    requires 0 < seed <= s && BelowSquare(i, s)
    ensures Foretells(i, s, 1, Next(i, seed), OvershootsFrom(i, s, seed)) && Next(i, seed) > s
  {
    ErrorAfterRound(s + 1, seed - s - 1);
    BelowSquareSkipsRoot(i, s, seed);
  }

  lemma ErrorsToOne(t: nat, e: nat)
    requires t > 0
    ensures e >= 2 ==> 0 <= NextError(t, e) <= e - 2 && (ReachesOne(t, e) <==> ReachesOne(t, NextError(t, e)))
    ensures e == 1 ==> NextError(t, e) == 0
    ensures e == 0 ==> NextError(t, e) == -1
  {
    if e >= 2 {
      ErrorShrinks(t, e);
    } else if e == 0 {
      Quotient(-1, 2 * t, -1);
    } else {
      Quotient(0, 2 * (t + 1), 0);
    }
  }

  lemma LaterRoundForetells(i: nat, s: nat, n: nat, p: nat, overshoots: bool)
    requires n > 0 && BelowSquare(i, s) && p > 0 && Foretells(i, s, n, p, overshoots)
    ensures var r := Next(i, p);
            if Stops(p, r) then r == s + (if overshoots then 1 else 0)
            else Foretells(i, s, n + 1, r, overshoots)
  {
    var t, e := s + 1, p - s - 1;
    ErrorAfterRound(t, e);
    ErrorsToOne(t, e);
    ForetoldByError(i, s, n, p, NextError(t, e), Next(i, p), overshoots);
  }

  lemma ForetoldByError(i: nat, s: nat, n: nat, p: nat, x: int, r: nat, overshoots: bool)
    requires p > s && r == s + 1 + x
    requires var e := p - s - 1;
             && (overshoots <==> ReachesOne(s + 1, e))
             && (e >= 2 ==> 0 <= x <= e - 2 && (ReachesOne(s + 1, e) <==> ReachesOne(s + 1, x)))
             && (e == 1 ==> x == 0) && (e == 0 ==> x == -1)
    ensures if Stops(p, r) then r == s + (if overshoots then 1 else 0)
            else Foretells(i, s, n + 1, r, overshoots)
  {
  }

  lemma ElsewhereIsRoot(i: nat, s: nat, p: nat)
    requires IsRoot(s, i) && p > 0 && Stops(p, Next(i, p)) && !BelowSquare(i, s)
    ensures Next(i, p) == s
  {
    var r := Next(i, p);
    StopBounds(i, p);
    SquareGrows(r + 1, s);
    SquareGrows(s + 2, r);
    SquareGrows(s + 1, r);
  }

  /** One round, all in one. */
  lemma Round(i: nat, s: nat, seed: nat, n: nat, p: nat)
    requires i > 0 && p > 0 && IsRoot(s, i) && seed == Pow2(SeedExponent(i))
    requires OnTrack(i, s, SeedExponent(i), n, p) && Foretells(i, s, n, p, OvershootsFrom(i, s, seed))
    ensures n <= SeedExponent(i) + 2
    ensures var r := Next(i, p);
            if Stops(p, r) then
              && r == s + (if OvershootsFrom(i, s, seed) then 1 else 0)
              && r * r <= i + 1 && i < (r + 1) * (r + 1)
            else
              && r > 0 && OnTrack(i, s, SeedExponent(i), n + 1, r)
              && Foretells(i, s, n + 1, r, OvershootsFrom(i, s, seed))
  {
    OnTrackRounds(i, s, SeedExponent(i), n, p);
    SeedIsNotAbove(i, s);
    if Stops(p, Next(i, p)) {
      StopBounds(i, p);
    } else {
      RoundStaysOnTrack(i, s, n, p);
    }
    if BelowSquare(i, s) {
      if n == 0 {
        FirstRoundForetells(i, s, seed);
      } else {
        LaterRoundForetells(i, s, n, p, OvershootsFrom(i, s, seed));
      }
    } else if Stops(p, Next(i, p)) {
      ElsewhereIsRoot(i, s, p);
    }
  }

  lemma RootFits(i: nat, s: nat)
    requires i < UINT_LIMIT && IsRoot(s, i)
    ensures s < 0x1_0000
  {
    SquareGrows(0x1_0000, s);
  }

  lemma OnTrackFits(i: nat, s: nat, n: nat, p: nat)
    requires 0 < i < UINT_LIMIT && IsRoot(s, i) && p > 0 && OnTrack(i, s, SeedExponent(i), n, p)
    ensures p < 0x4_0000
  {
    RootFits(i, s);
    SeedIsNotAbove(i, s);
    if n > 0 && p > s {
      Scale(1, Pow2(n - 1), p - s);
      Swap(p - s, Pow2(n - 1));
    }
  }

  /** Nothing in a round exceeds 32 bits. */
  lemma RoundFits(i: nat, s: nat, n: nat, p: nat)
    requires 0 < i < UINT_LIMIT && IsRoot(s, i) && p > 0 && OnTrack(i, s, SeedExponent(i), n, p)
    ensures RoundStaysIn32Bits(i, p)
  {
    RootFits(i, s);
    OnTrackFits(i, s, n, p);
    if n == 0 {
      SeedBounds(i);
      SeedIsNotAbove(i, s);
      FirstRound(i, p);
    } else {
      QuotientBounds(i, p);
      Scale(s + 3, i / p, p);
      Scale(s, p, s + 3);
      Swap(s + 3, p);
      DifferenceOfSquares(s + 1, 1);
    }
  }

  /** What the iteration holds after `n` rounds. */
  function Iterate(i: nat, n: nat): nat {
    if n == 0 then Pow2(SeedExponent(i))
    else if Iterate(i, n - 1) == 0 then 0
    else Next(i, Iterate(i, n - 1))
  }

  /** Neither the sum that is halved nor the one in the stopping test exceeds 32 bits. */
  predicate RoundStaysIn32Bits(i: nat, p: nat)
    requires p > 0
  {
    p + i / p < UINT_LIMIT && p + Next(i, p) < UINT_LIMIT
  }

  lemma ComputedRootBounds(i: nat)
    ensures var r := ComputedRoot(i); r * r <= i + 1 && i < (r + 1) * (r + 1)
  {
    SquareGrows(Root(i) + 1, Root(i) + 2);
  }

  /** What holds after `n` rounds, with the root at `s`, as long as the iteration goes on. */
  predicate Underway(i: nat, s: nat, n: nat, p: nat)
    requires s == Root(i)
  {
    p > 0 && if i == 0 then p == 1 && n == 0
             else OnTrack(i, s, SeedExponent(i), n, p) && Foretells(i, s, n, p, Overshoots(i))
  }

  lemma RoundLeads(i: nat, s: nat, n: nat, p: nat)
    requires i < UINT_LIMIT && s == Root(i) && Underway(i, s, n, p)
    ensures n <= SeedExponent(i) + 2 && RoundStaysIn32Bits(i, p)
    ensures if Stops(p, Next(i, p)) then Next(i, p) == ComputedRoot(i) else Underway(i, s, n + 1, Next(i, p))
  {
    if i == 0 {
      RoundOfZero();
    } else {
      Round(i, s, Pow2(SeedExponent(i)), n, p);
      RoundFits(i, s, n, p);
    }
  }

  lemma RoundOfZero()
    ensures Next(0, 1) == ComputedRoot(0) == 0
  {
  }

  /** Round number `k` divides by a positive number, stays in 32 bits, and is the last exactly if it ends
      with round number `n`. */
  predicate RoundGoesWell(i: nat, k: nat, n: nat) {
    var p, r := Iterate(i, k), Iterate(i, k + 1);
    p > 0 && RoundStaysIn32Bits(i, p) && (Stops(p, r) <==> k + 1 == n)
  }

  lemma NextIterate(i: nat, n: nat, p: nat)
    requires p == Iterate(i, n) > 0
    ensures Iterate(i, n + 1) == Next(i, p)
  {
  }

  /** What goes on or stops, and goes on only below a limit, stops. */
  lemma {:induction false} FirstStop(limit: nat, on: nat -> bool, stops: nat -> bool, n: nat) returns (last: nat)
    requires on(n) && forall k: nat | on(k) :: k < limit && (stops(k) || on(k + 1))
    ensures n < last <= limit && forall k: nat | n <= k < last :: on(k) && (stops(k) <==> k + 1 == last)
    decreases limit - n
  {
    if stops(n) {
      last := n + 1;
    } else {
      last := FirstStop(limit, on, stops, n + 1);
    }
  }

  lemma UnderwayLeadsOn(i: nat, s: nat, n: nat)
    requires i < UINT_LIMIT && s == Root(i) && Underway(i, s, n, Iterate(i, n))
    ensures n < SeedExponent(i) + 3 && Iterate(i, n) > 0 && RoundStaysIn32Bits(i, Iterate(i, n))
    ensures if Stops(Iterate(i, n), Iterate(i, n + 1)) then Iterate(i, n + 1) == ComputedRoot(i)
            else Underway(i, s, n + 1, Iterate(i, n + 1))
  {
    RoundLeads(i, s, n, Iterate(i, n));
    NextIterate(i, n, Iterate(i, n));
  }

  /** The whole iteration, in rounds. */
  lemma AllRounds(i: nat) returns (rounds: nat)
    requires i < UINT_LIMIT
    ensures 0 < rounds <= SeedExponent(i) + 3 && Iterate(i, rounds) == ComputedRoot(i)
    ensures forall k: nat | k < rounds :: RoundGoesWell(i, k, rounds)
  {
    var s := Root(i);
    var on := (n: nat) => Underway(i, s, n, Iterate(i, n));
    var stops := (n: nat) => Stops(Iterate(i, n), Iterate(i, n + 1));
    forall n: nat | on(n) ensures n < SeedExponent(i) + 3 && (stops(n) || on(n + 1)) {
      UnderwayLeadsOn(i, s, n);
    }
    StartsUnderway(i);
    rounds := FirstStop(SeedExponent(i) + 3, on, stops, 0);
    forall k: nat | k < rounds
      ensures RoundGoesWell(i, k, rounds) && (k + 1 == rounds ==> Iterate(i, k + 1) == ComputedRoot(i))
    {
      assert on(k) && (stops(k) <==> k + 1 == rounds);
      UnderwayLeadsOn(i, s, k);
    }
    assert RoundGoesWell(i, rounds - 1, rounds);
  }

  lemma StartsUnderway(i: nat)
    ensures Underway(i, Root(i), 0, Iterate(i, 0))
  {
  }

  /** The integer square root. It is the floor of the square root except on the inputs described by
      `Overshoots`, where it is one more; nothing in it exceeds 32 bits, and it takes at most three
      rounds more than the exponent of the seed. */
  method Isqrt(i: nat) returns (res: nat, ghost rounds: nat)
    requires i < UINT_LIMIT
    ensures res * res <= i + 1 && i < (res + 1) * (res + 1)
    ensures res == ComputedRoot(i)
    ensures 0 < rounds <= SeedExponent(i) + 3 && res == Iterate(i, rounds)
    ensures forall k: nat | k < rounds :: RoundGoesWell(i, k, rounds)
  {
    res := Seed(i);
    rounds := AllRounds(i);
    ghost var n := 0;
    var more := true;
    while more
      invariant n <= rounds && (more <==> n < rounds) && res == Iterate(i, n)
      decreases rounds - n
    {
      var prev := res;
      assert RoundGoesWell(i, n, rounds);
      NextIterate(i, n, prev);
      res := (prev + i / prev) / 2;
      more := (prev + res) / 2 != res;
      n := n + 1;
    }
    ComputedRootBounds(i);
  }

  /** The floor is missed, for instance, on 168: the seed is 8, the iterates are 14 and 13. */
  lemma OvershootsOn168()
    ensures Root(168) == 12 && Overshoots(168)
  {
    RootIsUnique(12, 168);
    assert SeedExponent(168) == 1 + (1 + (1 + SeedExponent(2)));
    assert Pow2(3) == 2 * (2 * (2 * Pow2(0)));
    assert NextError(13, -5) == 1;
  }

  /** On a square the result is exact. */
  lemma ExactOnSquares(d: nat)
    ensures Root(d * d) == d && !Overshoots(d * d)
  {
    RootIsUnique(d, d * d);
  }
}
