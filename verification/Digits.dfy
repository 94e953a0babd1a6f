/** Base-64 digits of instants: the arithmetic behind levels, slots and slot deadlines of the timing wheel. */
module Digits {
  import opened Words

  const NUM_LEVELS: nat := 6
  const LEVEL_MULT: nat := 64
  const MAX_DURATION: nat := 0xF_FFFF_FFFF
  const SLOT_MASK: nat := 63

  // ---- what the code computes ----

  function SlotRange(level: nat): (r: nat)
    ensures r > 0
  {
    if level == 0 then 1 else LEVEL_MULT * SlotRange(level - 1)
  }

  function LevelRange(level: nat): (r: nat)
    ensures r > 0
  {
    LEVEL_MULT * SlotRange(level)
  }

  function SlotFor(duration: nat, level: nat): (s: nat)
    ensures s < LEVEL_MULT
  {
    ShiftRight(duration, level * 6) % LEVEL_MULT
  }

  /** The level computation of the wheel: position of the leading one of `elapsed ^ when | SLOT_MASK`, over six. */
  function LevelFor(elapsed: nat, when: nat): int
  {
    (63 - LeadingZeros(Or(Xor(elapsed, when), SLOT_MASK))) / 6
  }

  function FloorTo(t: nat, m: nat): nat
    requires m > 0
  {
    t - t % m
  }

  /** The instant at which slot `slot` of level `level` falls due, seen from `now`. */
  function Deadline(now: nat, level: nat, slot: nat): nat
  {
    FloorTo(now, LevelRange(level)) + slot * SlotRange(level)
  }

  // ---- what it means ----

  /** All base-64 digits of `t` from position `level` upwards. */
  function Prefix(t: nat, level: nat): nat
    decreases level
  {
    if level == 0 then t else Prefix(t / 64, level - 1)
  }

  /** Highest base-64 digit position at which the two instants differ, 0 if there is none. */
  function TopDigit(a: nat, b: nat): nat
  {
    if a / 64 == b / 64 then 0 else 1 + TopDigit(a / 64, b / 64)
  }

  /** `t` is a whole number of slots of `level`. */
  predicate Aligned(t: nat, level: nat)
  {
    t == Prefix(t, level) * SlotRange(level)
  }

  // ---- prefixes ----

  lemma {:induction false} PrefixStep(t: nat, level: nat)
    ensures Prefix(t, level + 1) == Prefix(t, level) / 64
    decreases level
  {
    if level > 0 { PrefixStep(t / 64, level - 1); }
  }

  lemma {:induction false} PrefixMonotone(a: nat, b: nat, level: nat)
    requires a <= b
    ensures Prefix(a, level) <= Prefix(b, level)
    decreases level
  {
    if level > 0 { PrefixMonotone(a / 64, b / 64, level - 1); }
  }

  lemma {:induction false} PrefixUp(a: nat, b: nat, level: nat, higher: nat)
    requires level <= higher && Prefix(a, level) == Prefix(b, level)
    ensures Prefix(a, higher) == Prefix(b, higher)
    decreases higher
  {
    if level < higher {
      PrefixUp(a, b, level, higher - 1);
      PrefixStep(a, higher - 1);
      PrefixStep(b, higher - 1);
    }
  }

  /** A prefix is the quotient by the slot range. */
  lemma {:induction false} PrefixIsQuotient(t: nat, level: nat)
    ensures Prefix(t, level) == t / SlotRange(level)
    ensures Prefix(t, level) * SlotRange(level) <= t < (Prefix(t, level) + 1) * SlotRange(level)
    decreases level
  {
    if level > 0 {
      PrefixStep(t, level - 1);
      PrefixIsQuotient(t, level - 1);
      Regroup(t, SlotRange(level - 1), Prefix(t, level - 1), Prefix(t, level));
    }
  }

  lemma Regroup(t: nat, r: nat, p: nat, q: nat)
    requires r > 0 && p * r <= t < (p + 1) * r && q == p / 64
    ensures q * (64 * r) <= t < (q + 1) * (64 * r) && t / (64 * r) == q
  {
    Scale(64 * q, p, r);
    Scale(p + 1, 64 * q + 64, r);
    assert q * (64 * r) == (64 * q) * r;
    assert (q + 1) * (64 * r) == (64 * q + 64) * r;
    assert (q + 1) * (64 * r) == q * (64 * r) + 64 * r;
    Modulo(t, 64 * r, q, t - q * (64 * r));
  }

  lemma Scale(a: nat, b: nat, r: nat)
    requires a <= b
    ensures a * r <= b * r
  {}

  lemma {:induction false} ShiftIsPrefix(t: nat, level: nat)
    ensures ShiftRight(t, level * 6) == Prefix(t, level)
    decreases level
  {
    if level > 0 {
      ShiftIsPrefix(t / 64, level - 1);
      var n := (level - 1) * 6;
      assert ShiftRight(t, n + 6) == ShiftRight(t / 2, n + 5);
      assert ShiftRight(t / 2, n + 5) == ShiftRight(t / 2 / 2, n + 4);
      assert ShiftRight(t / 2 / 2, n + 4) == ShiftRight(t / 2 / 2 / 2, n + 3);
      assert ShiftRight(t / 8, n + 3) == ShiftRight(t / 8 / 2, n + 2);
      assert ShiftRight(t / 16, n + 2) == ShiftRight(t / 16 / 2, n + 1);
      assert ShiftRight(t / 32, n + 1) == ShiftRight(t / 32 / 2, n);
    }
  }

  lemma SlotIsDigit(t: nat, level: nat)
    ensures SlotFor(t, level) == Prefix(t, level) % 64
    ensures Prefix(t, level) == Prefix(t, level + 1) * 64 + SlotFor(t, level)
  {
    ShiftIsPrefix(t, level);
    PrefixStep(t, level);
  }

  // ---- the level computation ----

  lemma {:induction false} XorZero(a: nat, b: nat)
    ensures Xor(a, b) == 0 <==> a == b
    decreases a + b
  {
    if a != 0 || b != 0 { XorZero(a / 2, b / 2); }
  }

  lemma XorHalf(a: nat, b: nat)
    ensures Xor(a, b) / 2 == Xor(a / 2, b / 2)
  {}

  lemma XorShift(a: nat, b: nat)
    ensures Xor(a, b) / 64 == Xor(a / 64, b / 64)
  {
    var a1, b1 := a / 2, b / 2;
    var a2, b2 := a1 / 2, b1 / 2;
    var a3, b3 := a2 / 2, b2 / 2;
    var a4, b4 := a3 / 2, b3 / 2;
    var a5, b5 := a4 / 2, b4 / 2;
    XorHalf(a, b);
    XorHalf(a1, b1);
    XorHalf(a2, b2);
    XorHalf(a3, b3);
    XorHalf(a4, b4);
    XorHalf(a5, b5);
    assert a5 / 2 == a / 64 && b5 / 2 == b / 64;
  }

  lemma {:induction false} OrNothing(x: nat)
    ensures Or(x, 0) == x
    decreases x
  {
    if x > 0 { OrNothing(x / 2); }
  }

  lemma OrOdd(x: nat, m: nat)
    requires m % 2 == 1
    ensures Or(x, m) == 2 * Or(x / 2, m / 2) + 1
  {}

  lemma MaskFillsLowDigit(x: nat)
    ensures Or(x, SLOT_MASK) == x / 64 * 64 + 63
  {
    var x1 := x / 2;
    var x2 := x1 / 2;
    var x3 := x2 / 2;
    var x4 := x3 / 2;
    var x5 := x4 / 2;
    OrOdd(x, 63);
    OrOdd(x1, 31);
    OrOdd(x2, 15);
    OrOdd(x3, 7);
    OrOdd(x4, 3);
    OrOdd(x5, 1);
    OrNothing(x5 / 2);
    assert x5 / 2 == x / 64;
  }

  lemma BitLengthHalf(x: nat)
    requires x > 0
    ensures BitLength(x) == 1 + BitLength(x / 2)
  {}

  lemma {:induction false} BitLengthShort(x: nat, n: nat)
    requires x < Pow2(n)
    ensures BitLength(x) <= n
    decreases n
  {
    if n > 0 { BitLengthShort(x / 2, n - 1); }
  }

  lemma {:induction false} BitLengthSix(x: nat)
    requires x >= 32
    ensures BitLength(x) == 6 + BitLength(x / 64)
  {
    var x1 := x / 2;
    var x2 := x1 / 2;
    var x3 := x2 / 2;
    var x4 := x3 / 2;
    var x5 := x4 / 2;
    BitLengthHalf(x);
    BitLengthHalf(x1);
    BitLengthHalf(x2);
    BitLengthHalf(x3);
    BitLengthHalf(x4);
    BitLengthHalf(x5);
    assert x5 / 2 == x / 64;
  }

  /** Masking in the low digit makes the leading one of `x` count in whole digits, from digit 0 on. */
  lemma MaskedLevel(x: nat)
    ensures (63 - LeadingZeros(Or(x, SLOT_MASK))) / 6 == if x / 64 == 0 then 0
      else 1 + (63 - LeadingZeros(Or(x / 64, SLOT_MASK))) / 6
  {
    var up := x / 64;
    MaskFillsLowDigit(x);
    MaskFillsLowDigit(up);
    BitLengthSix(Or(x, SLOT_MASK));
    BitLengthSix(Or(up, SLOT_MASK));
    assert Or(x, SLOT_MASK) / 64 == up && Or(up, SLOT_MASK) / 64 == up / 64;
    if 0 < up < 64 {
      BitLengthShort(up, 6);
      BitLengthHalf(up);
    } else if up >= 64 {
      BitLengthSix(up);
    }
  }

  /** The xor / leading-zeros computation finds the highest differing base-64 digit. */
  lemma {:induction false} LevelForIsTopDigit(elapsed: nat, when: nat)
    ensures LevelFor(elapsed, when) == TopDigit(elapsed, when)
    decreases elapsed + when
  {
    XorShift(elapsed, when);
    XorZero(elapsed / 64, when / 64);
    MaskedLevel(Xor(elapsed, when));
    if elapsed / 64 != when / 64 {
      LevelForIsTopDigit(elapsed / 64, when / 64);
    }
  }

  lemma {:induction false} TopDigitBound(a: nat, b: nat, level: nat)
    ensures TopDigit(a, b) <= level <==> Prefix(a, level + 1) == Prefix(b, level + 1)
    decreases level
  {
    if a / 64 == b / 64 {
      PrefixUp(a, b, 1, level + 1);
    } else if level > 0 {
      TopDigitBound(a / 64, b / 64, level - 1);
    }
  }

  /** The level index is in range exactly when both instants agree from bit 36 upwards. */
  lemma LevelInRangeIff(elapsed: nat, when: nat)
    ensures LevelFor(elapsed, when) < NUM_LEVELS <==> elapsed / 0x10_0000_0000 == when / 0x10_0000_0000
  {
    LevelForIsTopDigit(elapsed, when);
    TopDigitBound(elapsed, when, 5);
    PrefixIsQuotient(elapsed, 6);
    PrefixIsQuotient(when, 6);
    assert SlotRange(3) == 0x4_0000;
    assert SlotRange(6) == 0x10_0000_0000;
  }

  /** The bound on `when - elapsed` alone does not keep the level index in range. */
  lemma DurationBoundIsNotEnough()
    ensures exists elapsed: nat, when: nat ::
      elapsed < when < U64_LIMIT && when - elapsed <= MAX_DURATION && LevelFor(elapsed, when) >= NUM_LEVELS
  {
    var elapsed, when := 0xF_FFFF_FFFF, 0x10_0000_0000;
    LevelInRangeIff(elapsed, when);
    assert elapsed < when < U64_LIMIT && when - elapsed <= MAX_DURATION && LevelFor(elapsed, when) >= NUM_LEVELS;
  }

  // ---- deadlines of slots ----

  /** A slot's deadline carries the slot as its digit, agrees with `now` above it and has only zeros below it. */
  lemma DeadlineFacts(now: nat, level: nat, slot: nat)
    requires slot < 64
    ensures Prefix(Deadline(now, level, slot), level) == Prefix(now, level + 1) * 64 + slot
    ensures Prefix(Deadline(now, level, slot), level + 1) == Prefix(now, level + 1)
    ensures Aligned(Deadline(now, level, slot), level)
  {
    var r := SlotRange(level);
    var d := Deadline(now, level, slot);
    var p := Prefix(now, level + 1);
    PrefixIsQuotient(now, level + 1);
    assert SlotRange(level + 1) == 64 * r == LevelRange(level);
    assert now == (now / (64 * r)) * (64 * r) + now % (64 * r);
    assert d == p * (64 * r) + slot * r;
    assert p * (64 * r) + slot * r == (p * 64 + slot) * r;
    Modulo(d, r, p * 64 + slot, 0);
    PrefixIsQuotient(d, level);
    PrefixStep(d, level);
  }

  lemma AlignedBelow(d: nat, level: nat, t: nat)
    requires Aligned(d, level)
    ensures d <= t <==> Prefix(d, level) <= Prefix(t, level)
  {
    if d <= t {
      PrefixMonotone(d, t, level);
    }
    if Prefix(d, level) <= Prefix(t, level) {
      PrefixIsQuotient(t, level);
      Scale(Prefix(d, level), Prefix(t, level), SlotRange(level));
    }
  }

  lemma AlignedDown(d: nat, level: nat)
    requires level > 0 && Aligned(d, level)
    ensures Aligned(d, level - 1)
    ensures Prefix(d, level - 1) == Prefix(d, level) * 64
  {
    var r := SlotRange(level - 1);
    var p := Prefix(d, level);
    assert d == p * (64 * r) == p * 64 * r;
    Modulo(d, r, p * 64, 0);
    PrefixIsQuotient(d, level - 1);
  }

  /** Everything in a slot lies within one slot range after the slot's deadline. */
  lemma WithinSlot(d: nat, level: nat, t: nat)
    requires Aligned(d, level) && Prefix(d, level) == Prefix(t, level)
    ensures d <= t < d + SlotRange(level)
  {
    hide Prefix, SlotRange;
    PrefixIsQuotient(t, level);
    var p, r := Prefix(t, level), SlotRange(level);
    assert t == p * r + t % r;
  }
}
