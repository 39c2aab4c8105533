/**
 Character sets for the scanner: up to 32 sets as bit planes of one shared array, against one array
 of flags for each set.
 */
module CharSets {

  const CHARS := 256

  /** The number of bits of an element, and with it the number of sets that can share a buffer. */
  const MAX_INDEX := 32

  // ----- Bitwise operations ------------------------------------------------------------------

  /** Bit number `id` of an element. */
  predicate Bit(element: nat, id: nat) {
    if id == 0 then element % 2 == 1 else Bit(element / 2, id - 1)
  }

  function And(a: nat, b: nat): nat {
    if a == 0 then 0 else 2 * And(a / 2, b / 2) + if a % 2 == 1 && b % 2 == 1 then 1 else 0
  }

  function Or(a: nat, b: nat): nat {
    if a == 0 then b else 2 * Or(a / 2, b / 2) + if a % 2 == 1 || b % 2 == 1 then 1 else 0
  }

  /** The complement of an element in `width` bits. */
  function Not(a: nat, width: nat): nat {
    if width == 0 then 0 else 2 * Not(a / 2, width - 1) + if a % 2 == 1 then 0 else 1
  }

  /** One shifted left `id` times. */
  function Mask(id: nat): (m: nat)
    ensures m > 0
  {
    if id == 0 then 1 else 2 * Mask(id - 1)
  }

  lemma {:induction false} ZeroHasNoBits(id: nat)
    ensures !Bit(0, id)
  {
    if id == 0 {
    } else {
      ZeroHasNoBits(id - 1);
    }
  }

  lemma {:induction false} BitOfAnd(a: nat, b: nat, id: nat)
    ensures Bit(And(a, b), id) <==> Bit(a, id) && Bit(b, id)
  {
    if a == 0 {
      ZeroHasNoBits(id);
    } else if id == 0 {
    } else {
      BitOfAnd(a / 2, b / 2, id - 1);
    }
  }

  lemma {:induction false} BitOfOr(a: nat, b: nat, id: nat)
    ensures Bit(Or(a, b), id) <==> Bit(a, id) || Bit(b, id)
  {
    if a == 0 {
      ZeroHasNoBits(id);
    } else if id == 0 {
    } else {
      BitOfOr(a / 2, b / 2, id - 1);
    }
  }

  lemma {:induction false} BitOfNot(a: nat, width: nat, id: nat)
    requires id < width
    ensures Bit(Not(a, width), id) <==> !Bit(a, id)
  {
    var half := Not(a / 2, width - 1);
    assert Not(a, width) / 2 == half && (Not(a, width) % 2 == 1 <==> a % 2 == 0);
    if id == 0 {
    } else {
      BitOfNot(a / 2, width - 1, id - 1);
    }
  }

  lemma {:induction false} BitOfMask(id: nat, other: nat)
    ensures Bit(Mask(id), other) <==> id == other
  {
    if other == 0 {
    } else {
      if id > 0 {
        BitOfMask(id - 1, other - 1);
      } else {
        ZeroHasNoBits(other - 1);
      }
    }
  }

  /** Masking leaves something exactly if the bit is there. */
  lemma {:induction false} MaskTestsBit(element: nat, id: nat)
    ensures And(element, Mask(id)) != 0 <==> Bit(element, id)
  {
    if element == 0 {
      ZeroHasNoBits(id);
    } else if id > 0 {
      MaskTestsBit(element / 2, id - 1);
    } else {
      AndWithZero(element / 2);
    }
  }

  lemma {:induction false} AndWithZero(a: nat)
    ensures And(a, 0) == 0
  {
    if a == 0 {
    } else {
      AndWithZero(a / 2);
    }
  }

  lemma SetReads(element: nat, id: nat, other: nat)
    ensures Bit(Or(element, Mask(id)), other) <==> id == other || Bit(element, other)
  {
    BitOfOr(element, Mask(id), other);
    BitOfMask(id, other);
  }

  lemma ClearReads(element: nat, id: nat, other: nat)
    requires other < MAX_INDEX
    ensures Bit(And(element, Not(Mask(id), MAX_INDEX)), other) <==> id != other && Bit(element, other)
  {
    BitOfAnd(element, Not(Mask(id), MAX_INDEX), other);
    BitOfNot(Mask(id), MAX_INDEX, other);
    BitOfMask(id, other);
  }

  /** The operations stay inside an element. */
  lemma {:induction false} OrFits(a: nat, b: nat, width: nat)
    requires a < Mask(width) && b < Mask(width)
    ensures Or(a, b) < Mask(width)
  {
    if a == 0 || width == 0 {
    } else {
      OrFits(a / 2, b / 2, width - 1);
    }
  }

  lemma {:induction false} AndFits(a: nat, b: nat)
    ensures And(a, b) <= a
  {
    if a == 0 {
    } else {
      AndFits(a / 2, b / 2);
    }
  }

  lemma {:induction false} MaskGrows(id: nat, width: nat)
    requires id < width
    ensures Mask(id) < Mask(width)
  {
    if id + 1 == width {
    } else {
      MaskGrows(id, width - 1);
    }
  }

  /** An element of the buffer: an unsigned integer of `MAX_INDEX` bits. */
  type Element = e: nat | e < Mask(MAX_INDEX) witness 0

  function WithBit(e: Element, id: nat): Element
    requires id < MAX_INDEX
  {
    MaskGrows(id, MAX_INDEX);
    OrFits(e, Mask(id), MAX_INDEX);
    Or(e, Mask(id))
  }

  function WithoutBit(e: Element, id: nat): Element {
    AndFits(e, Not(Mask(id), MAX_INDEX));
    And(e, Not(Mask(id), MAX_INDEX))
  }

  // ----- The two forms -----------------------------------------------------------------------

  /** A set in the shared form: a view of one bit plane of a buffer that others use as well. */
  class BitSet {
    const buf: array<Element>
    const id: nat

    ghost predicate Valid() {
      buf.Length == CHARS && id < MAX_INDEX
    }

    constructor (buf: array<Element>, id: nat)
      requires buf.Length == CHARS && id < MAX_INDEX
      ensures Valid() && this.buf == buf && this.id == id
    {
      this.buf, this.id := buf, id;
    }

    method Set(c: nat)
      requires Valid() && c < CHARS
      modifies buf
      ensures buf[..] == PlanesStep(old(buf[..]), Include(id, c))
    {
      buf[c] := WithBit(buf[c], id);
    }

    method Clear(c: nat)
      requires Valid() && c < CHARS
      modifies buf
      ensures buf[..] == PlanesStep(old(buf[..]), Exclude(id, c))
    {
      buf[c] := WithoutBit(buf[c], id);
    }

    method IsSet(c: nat) returns (r: nat)
      requires Valid() && c < CHARS
      ensures r != 0 <==> PlaneHas(buf[..], id, c)
    {
      r := And(buf[c], Mask(id));
      MaskTestsBit(buf[c], id);
    }
  }

  /** A set in the plain form, with an array of its own. */
  class FlagSet {
    const flags: array<int>

    ghost predicate Valid() {
      flags.Length == CHARS
    }

    constructor ()
      ensures Valid() && fresh(flags)
    {
      flags := new int[CHARS];
    }

    method Set(c: nat)
      requires Valid() && c < CHARS
      modifies flags
      ensures flags[..] == old(flags[..])[c := 1]
    {
      flags[c] := 1;
    }

    method Clear(c: nat)
      requires Valid() && c < CHARS
      modifies flags
      ensures flags[..] == old(flags[..])[c := 0]
    {
      flags[c] := 0;
    }

    method IsSet(c: nat) returns (r: int)
      requires Valid() && c < CHARS
      ensures r == flags[c]
    {
      r := flags[c];
    }
  }

  // ----- Sequences of operations -------------------------------------------------------------

  datatype Op = Include(id: nat, c: nat) | Exclude(id: nat, c: nat) {
    predicate Ok() {
      id < MAX_INDEX && c < CHARS
    }
  }

  /** A character is in the set `id` of the shared buffer. */
  predicate PlaneHas(planes: seq<Element>, id: nat, c: nat)
    requires c < |planes|
  {
    Bit(planes[c], id)
  }

  function PlanesStep(planes: seq<Element>, op: Op): seq<Element>
    requires op.c < |planes| && op.id < MAX_INDEX
  {
    match op
    case Include(id, c) => planes[c := WithBit(planes[c], id)]
    case Exclude(id, c) => planes[c := WithoutBit(planes[c], id)]
  }

  /** The separate arrays of flags, one for each set, are well-formed. */
  predicate Table(flags: seq<seq<int>>) {
    |flags| == MAX_INDEX && forall row <- flags :: |row| == CHARS
  }

  function FlagsStep(flags: seq<seq<int>>, op: Op): seq<seq<int>>
    requires Table(flags) && op.Ok()
    ensures Table(FlagsStep(flags, op))
  {
    flags[op.id := flags[op.id][op.c := if op.Include? then 1 else 0]]
  }

  /** The shared buffer and the separate arrays describe the same sets. */
  predicate Agree(planes: seq<Element>, flags: seq<seq<int>>) {
    && |planes| == CHARS && Table(flags)
    && forall id: nat, c: nat | id < MAX_INDEX && c < CHARS :: PlaneHas(planes, id, c) <==> flags[id][c] != 0
  }

  /** An operation changes the shared element of its character as it should for every set. */
  lemma ElementAgrees(planes: seq<Element>, op: Op, id: nat)
    requires |planes| == CHARS && op.Ok() && id < MAX_INDEX
    ensures PlaneHas(PlanesStep(planes, op), id, op.c)
            <==> if id == op.id then op.Include? else PlaneHas(planes, id, op.c)
  {
    SetReads(planes[op.c], op.id, id);
    ClearReads(planes[op.c], op.id, id);
  }

  lemma OtherElements(planes: seq<Element>, op: Op, id: nat, c: nat)
    requires |planes| == CHARS && op.Ok() && c < CHARS && c != op.c
    ensures PlaneHas(PlanesStep(planes, op), id, c) <==> PlaneHas(planes, id, c)
  {
    assert PlanesStep(planes, op)[c] == planes[c];
  }

  /** An operation on one set does in the shared buffer what it does on the separate array, and nothing
      to any other set. */
  lemma StepAgrees(planes: seq<Element>, flags: seq<seq<int>>, op: Op)
    requires Agree(planes, flags) && op.Ok()
    ensures Agree(PlanesStep(planes, op), FlagsStep(flags, op))
  {
    var flags' := FlagsStep(flags, op);
    forall id: nat, c: nat | id < MAX_INDEX && c < CHARS
      ensures PlaneHas(PlanesStep(planes, op), id, c) <==> flags'[id][c] != 0
    {
      EntryAgrees(planes, flags, op, id, c);
    }
  }

  lemma EntryAgrees(planes: seq<Element>, flags: seq<seq<int>>, op: Op, id: nat, c: nat)
    requires Agree(planes, flags) && op.Ok() && id < MAX_INDEX && c < CHARS
    ensures PlaneHas(PlanesStep(planes, op), id, c) <==> FlagsStep(flags, op)[id][c] != 0
  {
    assert PlaneHas(planes, id, c) <==> flags[id][c] != 0;
    if c == op.c {
      ElementAgrees(planes, op, id);
    } else {
      OtherElements(planes, op, id, c);
    }
  }

  predicate AllOk(ops: seq<Op>) {
    forall k | 0 <= k < |ops| :: ops[k].Ok()
  }

  function PlanesRun(planes: seq<Element>, ops: seq<Op>): (r: seq<Element>)
    requires |planes| == CHARS && AllOk(ops)
    ensures |r| == CHARS
    decreases |ops|
  {
    if ops == [] then planes else PlanesRun(PlanesStep(planes, ops[0]), ops[1..])
  }

  function FlagsRun(flags: seq<seq<int>>, ops: seq<Op>): (r: seq<seq<int>>)
    requires Table(flags) && AllOk(ops)
    ensures Table(r)
    decreases |ops|
  {
    if ops == [] then flags else FlagsRun(FlagsStep(flags, ops[0]), ops[1..])
  }

  /** Whatever is included and excluded, in any order and on any of the 32 sets: the shared buffer and
      the separate arrays, once they agree, agree ever after. */
  lemma {:induction false} RunsAgree(planes: seq<Element>, flags: seq<seq<int>>, ops: seq<Op>)
    requires Agree(planes, flags) && AllOk(ops)
    ensures Agree(PlanesRun(planes, ops), FlagsRun(flags, ops))
    decreases |ops|
  {
    if ops == [] {
    } else {
      StepAgrees(planes, flags, ops[0]);
      RunsAgree(PlanesStep(planes, ops[0]), FlagsStep(flags, ops[0]), ops[1..]);
    }
  }

  // ----- Sequences of operations on the objects ----------------------------------------------

  /** All the sets of one shared buffer, each at the position of its bit. */
  ghost predicate Sharing(sets: seq<BitSet>, buf: array<Element>) {
    && buf.Length == CHARS && |sets| == MAX_INDEX
    && forall id | 0 <= id < MAX_INDEX :: sets[id].Valid() && sets[id].buf == buf && sets[id].id == id
  }

  method ApplyToShared(sets: seq<BitSet>, buf: array<Element>, op: Op)
    requires Sharing(sets, buf) && op.Ok()
    modifies buf
    ensures buf[..] == PlanesStep(old(buf[..]), op)
  {
    match op
    case Include(id, c) => sets[id].Set(c);
    case Exclude(id, c) => sets[id].Clear(c);
  }

  method ApplyShared(sets: seq<BitSet>, buf: array<Element>, ops: seq<Op>)
    requires Sharing(sets, buf) && AllOk(ops)
    modifies buf
    ensures buf[..] == PlanesRun(old(buf[..]), ops)
  {
    var k := 0;
    while k < |ops|
      invariant 0 <= k <= |ops|
      invariant PlanesRun(buf[..], ops[k..]) == PlanesRun(old(buf[..]), ops)
    {
      assert ops[k..][0] == ops[k] && ops[k..][1..] == ops[k + 1..];
      ApplyToShared(sets, buf, ops[k]);
      k := k + 1;
    }
  }

  /** A set for every position, no two with the same array. */
  ghost predicate Separate(sets: seq<FlagSet>) {
    && |sets| == MAX_INDEX && (forall id | 0 <= id < MAX_INDEX :: sets[id].Valid())
    && forall i, j | 0 <= i < j < MAX_INDEX :: sets[i].flags != sets[j].flags
  }

  ghost function Rows(sets: seq<FlagSet>): seq<seq<int>>
    reads set s <- sets :: s.flags
  {
    seq(|sets|, i requires 0 <= i < |sets| reads set s <- sets :: s.flags => sets[i].flags[..])
  }

  method ApplyToOwn(sets: seq<FlagSet>, op: Op)
    requires Separate(sets) && op.Ok()
    modifies sets[op.id].flags
    ensures Table(old(Rows(sets))) && Rows(sets) == FlagsStep(old(Rows(sets)), op)
  {
    match op
    case Include(id, c) => sets[id].Set(c);
    case Exclude(id, c) => sets[id].Clear(c);
  }

  method ApplySeparate(sets: seq<FlagSet>, ops: seq<Op>)
    requires Separate(sets) && AllOk(ops)
    modifies set s <- sets :: s.flags
    ensures Table(old(Rows(sets))) && Rows(sets) == FlagsRun(old(Rows(sets)), ops)
  {
    var k := 0;
    while k < |ops|
      invariant 0 <= k <= |ops|
      invariant Table(Rows(sets)) && FlagsRun(Rows(sets), ops[k..]) == FlagsRun(old(Rows(sets)), ops)
    {
      assert ops[k..][0] == ops[k] && ops[k..][1..] == ops[k + 1..];
      ApplyToOwn(sets, ops[k]);
      k := k + 1;
    }
  }

  /** The same operations on both forms, which agreed before, leave them in agreement. */
  method ApplyBoth(shared: seq<BitSet>, buf: array<Element>, separate: seq<FlagSet>, ops: seq<Op>)
    requires Sharing(shared, buf) && Separate(separate) && AllOk(ops)
    requires forall s <- separate :: (s.flags as object) != buf
    requires Agree(buf[..], Rows(separate))
    modifies buf, set s <- separate :: s.flags
    ensures Agree(buf[..], Rows(separate))
    ensures buf[..] == PlanesRun(old(buf[..]), ops)
  {
    RunsAgree(buf[..], Rows(separate), ops);
    ApplyShared(shared, buf, ops);
    ApplySeparate(separate, ops);
  }
}
