/**
 64-bit timestamps kept as two 32-bit halves, for platforms without 64-bit integers. The form with
 a 64-bit integer is what the halves have to agree with.
 */
module Timestamps {

  const TWO32 := 0x1_0000_0000
  const TWO64 := 0x1_0000_0000_0000_0000

  type U32 = x: int | 0 <= x < TWO32 witness 0
  type U64 = x: int | 0 <= x < TWO64 witness 0

  /** The halves as the 64-bit number they stand for. */
  function Whole(hi: U32, lo: U32): U64 {
    hi * TWO32 + lo
  }

  /** A remainder of something at most one modulus out of range. */
  lemma WrapOnce(x: int, m: int)
    requires m > 0 && -m <= x < 2 * m
    ensures x % m == if x < 0 then x + m else if x < m then x else x - m
  {
  }

  lemma CarryIsRight(hi1: U32, lo1: U32, hi2: U32, lo2: U32)
    ensures var lo := (lo1 + lo2) % TWO32;
            var hi := (hi1 + hi2) % TWO32;
            Whole(if lo < lo1 then (hi + 1) % TWO32 else hi, lo) == WideAdd(Whole(hi1, lo1), Whole(hi2, lo2))
  {
    WrapOnce(lo1 + lo2, TWO32);
    WrapOnce(hi1 + hi2, TWO32);
    WrapOnce((hi1 + hi2) % TWO32 + 1, TWO32);
    WrapOnce(Whole(hi1, lo1) + Whole(hi2, lo2), TWO64);
  }

  lemma BorrowIsRight(hi1: U32, lo1: U32, hi2: U32, lo2: U32)
    ensures var lo := (lo1 - lo2) % TWO32;
            var hi := (hi1 - hi2) % TWO32;
            Whole(if lo1 >= lo2 then hi else (hi - 1) % TWO32, lo) == WideSub(Whole(hi1, lo1), Whole(hi2, lo2))
  {
    WrapOnce(lo1 - lo2, TWO32);
    WrapOnce(hi1 - hi2, TWO32);
    WrapOnce((hi1 - hi2) % TWO32 - 1, TWO32);
    WrapOnce(Whole(hi1, lo1) - Whole(hi2, lo2), TWO64);
  }

  lemma Carry32IsRight(hi: U32, lo: U32, t2: U32)
    ensures var l := (lo + t2) % TWO32;
            Whole(if l < lo then (hi + 1) % TWO32 else hi, l) == WideAdd(Whole(hi, lo), t2)
  {
    WrapOnce(lo + t2, TWO32);
    WrapOnce(hi + 1, TWO32);
    WrapOnce(Whole(hi, lo) + t2, TWO64);
  }

  lemma Borrow32IsRight(hi: U32, lo: U32, t2: U32)
    ensures var l := (lo - t2) % TWO32;
            Whole(if lo >= t2 then hi else (hi - 1) % TWO32, l) == WideSub(Whole(hi, lo), t2)
  {
    WrapOnce(lo - t2, TWO32);
    WrapOnce(hi - 1, TWO32);
    WrapOnce(Whole(hi, lo) - t2, TWO64);
  }

  class Timestamp {
    var hi: U32
    var lo: U32

    function Value(): U64
      reads this
    {
      Whole(hi, lo)
    }

    constructor (hi: U32, lo: U32)
      ensures this.hi == hi && this.lo == lo
    {
      this.hi, this.lo := hi, lo;
    }

    method Set(hi: U32, lo: U32)
      modifies this
      ensures Value() == Whole(hi, lo)
    {
      this.hi := hi;
      this.lo := lo;
    }

    /** Add another timestamp, which may be this one, with the carry out of the low half. */
    method Add(t2: Timestamp)
      modifies this
      ensures Value() == WideAdd(old(Value()), old(t2.Value()))
    {
      CarryIsRight(hi, lo, t2.hi, t2.lo);
      var before := lo;
      hi := (hi + t2.hi) % TWO32;
      lo := (lo + t2.lo) % TWO32;
      if lo < before {
        hi := (hi + 1) % TWO32;
      }
    }

    method Add32(t2: U32)
      modifies this
      ensures Value() == WideAdd(old(Value()), t2)
    {
      Carry32IsRight(hi, lo, t2);
      var before := lo;
      lo := (lo + t2) % TWO32;
      if lo < before {
        hi := (hi + 1) % TWO32;
      }
    }

    /** Subtract another timestamp, which may be this one, with the borrow from the high half. */
    method Sub(t2: Timestamp)
      modifies this
      ensures Value() == WideSub(old(Value()), old(t2.Value()))
    {
      BorrowIsRight(hi, lo, t2.hi, t2.lo);
      hi := (hi - t2.hi) % TWO32;
      if lo >= t2.lo {
        lo := (lo - t2.lo) % TWO32;
      } else {
        lo := (lo - t2.lo) % TWO32;
        hi := (hi - 1) % TWO32;
      }
    }

    method Sub32(t2: U32)
      modifies this
      ensures Value() == WideSub(old(Value()), t2)
    {
      Borrow32IsRight(hi, lo, t2);
      if lo >= t2 {
        lo := (lo - t2) % TWO32;
      } else {
        lo := (lo - t2) % TWO32;
        hi := (hi - 1) % TWO32;
      }
    }
  }

  // ----- The 64-bit form ---------------------------------------------------------------------

  function WideAdd(a: U64, b: U64): U64 {
    (a + b) % TWO64
  }

  function WideSub(a: U64, b: U64): U64 {
    (a - b) % TWO64
  }

  // ----- Comparison and difference -----------------------------------------------------------

  /** Comparing the halves, high before low, is comparing the numbers. */
  function Compare(hi1: U32, lo1: U32, hi2: U32, lo2: U32): (r: int)
    ensures r == -1 <==> Whole(hi1, lo1) < Whole(hi2, lo2)
    ensures r == 1 <==> Whole(hi1, lo1) > Whole(hi2, lo2)
    ensures r == 0 <==> hi1 == hi2 && lo1 == lo2
    ensures r == -1 || r == 0 || r == 1
  {
    if hi1 < hi2 || (hi1 == hi2 && lo1 < lo2) then -1
    else if hi1 > hi2 || (hi1 == hi2 && lo1 > lo2) then 1
    else 0
  }

  /** A 32-bit pattern read as a signed integer. */
  function Signed32(x: U32): int {
    if x < 0x8000_0000 then x else x - TWO32
  }

  /** A 64-bit pattern read as a signed integer. */
  function Signed64(x: U64): int {
    if x < 0x8000_0000_0000_0000 then x else x - TWO64
  }

  /** The difference computed in 64 bits and cut down to 32. */
  function WideDiff32(t1: U64, t2: U64): int {
    Signed32(Signed64(WideSub(t2, t1)) % TWO32)
  }

  /** The difference of the low halves alone. */
  function Diff32(lo1: U32, lo2: U32): int {
    Signed32((lo2 - lo1) % TWO32)
  }

  lemma Cancel32(x: int, k: int)
    ensures (x + k * TWO32) % TWO32 == x % TWO32
  {
  }

  /** The low halves give the same 32-bit difference as the whole numbers, and it is the true difference
      exactly if that fits into 32 signed bits. */
  lemma Differences(hi1: U32, lo1: U32, hi2: U32, lo2: U32)
    ensures var t1, t2, d := Whole(hi1, lo1), Whole(hi2, lo2), Diff32(lo1, lo2);
            && d == WideDiff32(t1, t2)
            && -0x8000_0000 <= d < 0x8000_0000
            && (d == t2 - t1 <==> -0x8000_0000 <= t2 - t1 < 0x8000_0000)
  {
    var t1, t2 := Whole(hi1, lo1), Whole(hi2, lo2);
    Cancel32(lo2 - lo1, hi2 - hi1);
    assert (t2 - t1) % TWO32 == (lo2 - lo1) % TWO32;
    Cancel32(t2 - t1, TWO32);
    Cancel32(t2 - t1, -TWO32);
    assert Signed64(WideSub(t2, t1)) % TWO32 == (t2 - t1) % TWO32;
  }

  // ----- Sequences of operations -------------------------------------------------------------

  /** An operation on the timestamps of a table; both timestamps may be the same one. */
  datatype Op = Plus(i: nat, j: nat) | Plus32(i: nat, c: U32) | Minus(i: nat, j: nat) | Minus32(i: nat, c: U32)

  predicate Names(n: nat, op: Op) {
    op.i < n && (op.Plus? || op.Minus? ==> op.j < n)
  }

  /** What an operation does to 64-bit numbers. */
  function WideStep(v: seq<U64>, op: Op): (v': seq<U64>)
    requires Names(|v|, op)
    ensures |v'| == |v|
  {
    match op
    case Plus(i, j) => v[i := WideAdd(v[i], v[j])]
    case Plus32(i, c) => v[i := WideAdd(v[i], c)]
    case Minus(i, j) => v[i := WideSub(v[i], v[j])]
    case Minus32(i, c) => v[i := WideSub(v[i], c)]
  }

  function WideRun(v: seq<U64>, ops: seq<Op>): (v': seq<U64>)
    requires forall op <- ops :: Names(|v|, op)
    ensures |v'| == |v|
  {
    if ops == [] then v else WideStep(WideRun(v, ops[..|ops| - 1]), ops[|ops| - 1])
  }

  /** The same operations on integers that never wrap. */
  function FreeStep(v: seq<int>, op: Op): (v': seq<int>)
    requires Names(|v|, op)
    ensures |v'| == |v|
  {
    match op
    case Plus(i, j) => v[i := v[i] + v[j]]
    case Plus32(i, c) => v[i := v[i] + c]
    case Minus(i, j) => v[i := v[i] - v[j]]
    case Minus32(i, c) => v[i := v[i] - c]
  }

  function FreeRun(v: seq<int>, ops: seq<Op>): (v': seq<int>)
    requires forall op <- ops :: Names(|v|, op)
    ensures |v'| == |v|
  {
    if ops == [] then v else FreeStep(FreeRun(v, ops[..|ops| - 1]), ops[|ops| - 1])
  }

  lemma Cancel64(x: int, k: int)
    ensures (x + k * TWO64) % TWO64 == x % TWO64
  {
  }

  lemma WideWraps(a: U64, b: U64, x: int, y: int)
    requires a == x % TWO64 && b == y % TWO64
    ensures WideAdd(a, b) == (x + y) % TWO64 && WideSub(a, b) == (x - y) % TWO64
  {
    var p, q := x / TWO64, y / TWO64;
    Cancel64(a + b, p + q);
    Cancel64(a - b, p - q);
  }

  ghost predicate Wraps(v: seq<U64>, f: seq<int>) {
    |v| == |f| && forall k | 0 <= k < |v| :: v[k] == f[k] % TWO64
  }

  lemma StepWraps(v: seq<U64>, f: seq<int>, op: Op)
    requires Wraps(v, f) && Names(|v|, op)
    ensures Wraps(WideStep(v, op), FreeStep(f, op))
  {
    match op
    case Plus(i, j) => WideWraps(v[i], v[j], f[i], f[j]);
    case Minus(i, j) => WideWraps(v[i], v[j], f[i], f[j]);
    case Plus32(i, c) => WideWraps(v[i], c, f[i], c);
    case Minus32(i, c) => WideWraps(v[i], c, f[i], c);
  }

  /** Whatever is added and subtracted, in whatever order and with whatever carries on the way, every
      timestamp ends as the exact result modulo 2^64. */
  lemma {:induction false} OnlyTheResultWraps(v: seq<U64>, ops: seq<Op>)
    requires forall op <- ops :: Names(|v|, op)
    ensures forall k | 0 <= k < |v| :: WideRun(v, ops)[k] == FreeRun(v, ops)[k] % TWO64
  {
    if ops == [] {
    } else {
      var front := ops[..|ops| - 1];
      assert ops[|ops| - 1] in ops;
      forall op <- front ensures Names(|v|, op) {
        assert op in ops;
      }
      OnlyTheResultWraps(v, front);
      StepWraps(WideRun(v, front), FreeRun(v, front), ops[|ops| - 1]);
    }
  }

  ghost function Values(stamps: seq<Timestamp>): (v: seq<U64>)
    reads stamps
    ensures |v| == |stamps|
  {
    seq(|stamps|, i requires 0 <= i < |stamps| reads stamps => stamps[i].Value())
  }

  predicate Distinct(stamps: seq<Timestamp>) {
    forall i, j | 0 <= i < j < |stamps| :: stamps[i] != stamps[j]
  }

  /** One operation on a table of distinct timestamps. */
  method Apply(stamps: seq<Timestamp>, op: Op)
    requires Distinct(stamps)
    requires Names(|stamps|, op)
    modifies stamps
    ensures Values(stamps) == WideStep(old(Values(stamps)), op)
  {
    match op
    case Plus(i, j) => stamps[i].Add(stamps[j]);
    case Plus32(i, c) => stamps[i].Add32(c);
    case Minus(i, j) => stamps[i].Sub(stamps[j]);
    case Minus32(i, c) => stamps[i].Sub32(c);
  }

  /** Any sequence of operations on the table: exact but for one reduction modulo 2^64 at the end. */
  method ApplyAll(stamps: seq<Timestamp>, ops: seq<Op>)
    requires Distinct(stamps)
    requires forall op <- ops :: Names(|stamps|, op)
    modifies stamps
    ensures Values(stamps) == WideRun(old(Values(stamps)), ops)
    ensures Wraps(Values(stamps), FreeRun(old(Values(stamps)), ops))
  {
    ghost var start := Values(stamps);
    var k := 0;
    while k < |ops|
      invariant 0 <= k <= |ops|
      invariant Values(stamps) == WideRun(start, ops[..k])
    {
      Apply(stamps, ops[k]);
      assert ops[..k + 1][..k] == ops[..k];
      k := k + 1;
    }
    assert ops[..k] == ops;
    OnlyTheResultWraps(start, ops);
  }
}
