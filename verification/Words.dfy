/** Unsigned 64-bit words as natural numbers below 2^64, with the bit operations the timing wheel uses. */
module Words {
  const U64_LIMIT: nat := 0x1_0000_0000_0000_0000

  function Pow2(n: nat): (p: nat)
    ensures p > 0
  {
    if n == 0 then 1 else 2 * Pow2(n - 1)
  }

  predicate Bit(w: nat, i: nat)
    decreases i
  {
    if i == 0 then w % 2 == 1 else Bit(w / 2, i - 1)
  }

  function Or(a: nat, b: nat): nat
    decreases a + b
  {
    if a == 0 && b == 0 then 0
    else 2 * Or(a / 2, b / 2) + if a % 2 == 1 || b % 2 == 1 then 1 else 0
  }

  function Xor(a: nat, b: nat): nat
    decreases a + b
  {
    if a == 0 && b == 0 then 0
    else 2 * Xor(a / 2, b / 2) + if a % 2 != b % 2 then 1 else 0
  }

  function ShiftRight(w: nat, n: nat): nat
    decreases n
  {
    if n == 0 then w else ShiftRight(w / 2, n - 1)
  }

  /** One bit leaves on the right and comes back as the top bit of a `width`-bit word. */
  function RotateOnce(width: nat, w: nat): nat
    requires width > 0
  {
    Or(w / 2, if w % 2 == 1 then Pow2(width - 1) else 0)
  }

  /** `rotate_right` on words of `width` bits; `u64::rotate_right` is the case `width == 64`. */
  function RotateRight(width: nat, w: nat, n: nat): nat
    requires width > 0
    decreases n
  {
    if n == 0 then w else RotateRight(width, RotateOnce(width, w), n - 1)
  }

  /** `u64::trailing_zeros`. */
  function TrailingZeros(w: nat): nat
  {
    if w == 0 then 64 else if w % 2 == 1 then 0 else 1 + TrailingZeros(w / 2)
  }

  function BitLength(w: nat): nat
  {
    if w == 0 then 0 else 1 + BitLength(w / 2)
  }

  /** `u64::leading_zeros`. */
  function LeadingZeros(w: nat): int
  {
    64 - BitLength(w)
  }

  lemma {:induction false} ZeroHasNoBits(i: nat)
    ensures !Bit(0, i)
    decreases i
  {
    if i > 0 { ZeroHasNoBits(i - 1); }
  }

  lemma {:induction false} OrBit(a: nat, b: nat, i: nat)
    ensures Bit(Or(a, b), i) <==> Bit(a, i) || Bit(b, i)
    decreases i
  {
    if a == 0 && b == 0 {
      ZeroHasNoBits(i);
    } else if i > 0 {
      OrBit(a / 2, b / 2, i - 1);
    }
  }

  lemma {:induction false} XorBit(a: nat, b: nat, i: nat)
    ensures Bit(Xor(a, b), i) <==> Bit(a, i) != Bit(b, i)
    decreases i
  {
    if a == 0 && b == 0 {
      ZeroHasNoBits(i);
    } else if i > 0 {
      XorBit(a / 2, b / 2, i - 1);
    }
  }

  lemma {:induction false} Pow2Bit(n: nat, i: nat)
    ensures Bit(Pow2(n), i) <==> i == n
    decreases i
  {
    if n == 0 {
      if i > 0 { ZeroHasNoBits(i - 1); }
    } else if i > 0 {
      Pow2Bit(n - 1, i - 1);
    }
  }

  lemma {:induction false} HighBitsClear(w: nat, n: nat, i: nat)
    requires w < Pow2(n) && n <= i
    ensures !Bit(w, i)
    decreases i
  {
    if i > 0 {
      if n > 0 { HighBitsClear(w / 2, n - 1, i - 1); } else { ZeroHasNoBits(i); }
    }
  }

  lemma {:induction false} OrFits(a: nat, b: nat, n: nat)
    requires a < Pow2(n) && b < Pow2(n)
    ensures Or(a, b) < Pow2(n)
    decreases n
  {
    if n > 0 { OrFits(a / 2, b / 2, n - 1); }
  }

  lemma {:induction false} XorFits(a: nat, b: nat, n: nat)
    requires a < Pow2(n) && b < Pow2(n)
    ensures Xor(a, b) < Pow2(n)
    decreases n
  {
    if n > 0 { XorFits(a / 2, b / 2, n - 1); }
  }

  lemma {:induction false} Pow2Monotone(m: nat, n: nat)
    requires m < n
    ensures Pow2(m) < Pow2(n)
    decreases n
  {
    if m < n - 1 { Pow2Monotone(m, n - 1); }
  }

  /** A non-zero word has a bit set, and its trailing-zero count is the least one. */
  lemma {:induction false} TrailingZerosIsLowestBit(w: nat)
    requires w > 0
    ensures Bit(w, TrailingZeros(w))
    ensures forall j :: 0 <= j < TrailingZeros(w) ==> !Bit(w, j)
    decreases w
  {
    if w % 2 == 0 {
      TrailingZerosIsLowestBit(w / 2);
      forall j | 0 <= j < TrailingZeros(w) ensures !Bit(w, j) {
        if j > 0 { assert Bit(w, j) == Bit(w / 2, j - 1); }
      }
    }
  }

  lemma RotateOnceBit(width: nat, w: nat, i: nat)
    requires width > 0 && w < Pow2(width) && i < width
    ensures RotateOnce(width, w) < Pow2(width)
    ensures Bit(RotateOnce(width, w), i) <==> Bit(w, if i + 1 == width then 0 else i + 1)
  {
    var top := if w % 2 == 1 then Pow2(width - 1) else 0;
    assert w / 2 < Pow2(width - 1);
    OrFits(w / 2, top, width);
    OrBit(w / 2, top, i);
    Pow2Bit(width - 1, i);
    ZeroHasNoBits(i);
    if i + 1 == width {
      HighBitsClear(w / 2, width - 1, i);
    }
  }

  lemma Modulo(x: nat, m: nat, q: nat, r: nat)
    requires m > 0 && x == q * m + r && r < m
    ensures x % m == r && x / m == q
  {
    var k := x / m - q;
    assert x == (x / m) * m + x % m;
    assert (x / m) * m == q * m + k * m;
    assert k > 0 ==> k * m >= m;
    assert k < 0 ==> k * m <= -1 * m;
  }

  lemma WrapOnce(x: nat, width: nat)
    requires width > 0
    ensures (x + 1) % width == if x % width + 1 == width then 0 else x % width + 1
  {
    var q, r := x / width, x % width;
    if r + 1 < width {
      Modulo(x + 1, width, q, r + 1);
    } else {
      assert (q + 1) * width == q * width + width;
      Modulo(x + 1, width, q + 1, 0);
    }
  }

  lemma {:induction false} RotateRightBit(width: nat, w: nat, n: nat, i: nat)
    requires width > 0 && w < Pow2(width) && i < width
    ensures RotateRight(width, w, n) < Pow2(width)
    ensures Bit(RotateRight(width, w, n), i) <==> Bit(w, (i + n) % width)
    decreases n
  {
    if n == 0 {
      Modulo(i, width, 0, i);
    } else {
      RotateOnceBit(width, w, (i + n - 1) % width);
      RotateRightBit(width, RotateOnce(width, w), n - 1, i);
      WrapOnce(i + n - 1, width);
    }
  }

  lemma {:induction false} SomeBitSet(w: nat, n: nat)
    requires 0 < w < Pow2(n)
    ensures TrailingZeros(w) < n && Bit(w, TrailingZeros(w))
    decreases n
  {
    if w % 2 == 0 { SomeBitSet(w / 2, n - 1); }
  }

  lemma {:induction false} EmptyIffNoBit(w: nat, n: nat)
    requires w < Pow2(n)
    ensures w == 0 <==> forall i :: 0 <= i < n ==> !Bit(w, i)
  {
    forall i | 0 <= i < n ensures !Bit(0, i) { ZeroHasNoBits(i); }
    if w > 0 {
      SomeBitSet(w, n);
      assert exists i :: 0 <= i < n && Bit(w, i);
    }
  }

  lemma U64IsPow2()
    ensures Pow2(64) == U64_LIMIT
  {
    assert Pow2(8) == 256;
    assert Pow2(16) == 256 * Pow2(8);
    assert Pow2(24) == 256 * Pow2(16);
    assert Pow2(32) == 256 * Pow2(24);
    assert Pow2(40) == 256 * Pow2(32);
    assert Pow2(48) == 256 * Pow2(40);
    assert Pow2(56) == 256 * Pow2(48);
    assert Pow2(64) == 256 * Pow2(56);
  }

  // ---- the same for 64-bit words ----

  lemma SetBit64(w: nat, s: nat)
    requires w < U64_LIMIT && s < 64
    ensures Or(w, Pow2(s)) < U64_LIMIT
    ensures forall i :: 0 <= i < 64 ==> (Bit(Or(w, Pow2(s)), i) <==> Bit(w, i) || i == s)
  {
    U64IsPow2();
    Pow2Monotone(s, 64);
    OrFits(w, Pow2(s), 64);
    forall i | 0 <= i < 64 ensures Bit(Or(w, Pow2(s)), i) <==> Bit(w, i) || i == s {
      OrBit(w, Pow2(s), i);
      Pow2Bit(s, i);
    }
  }

  lemma ClearBit64(w: nat, s: nat)
    requires w < U64_LIMIT && s < 64 && Bit(w, s)
    ensures Xor(w, Pow2(s)) < U64_LIMIT
    ensures forall i :: 0 <= i < 64 ==> (Bit(Xor(w, Pow2(s)), i) <==> Bit(w, i) && i != s)
  {
    U64IsPow2();
    Pow2Monotone(s, 64);
    XorFits(w, Pow2(s), 64);
    forall i | 0 <= i < 64 ensures Bit(Xor(w, Pow2(s)), i) <==> Bit(w, i) && i != s {
      XorBit(w, Pow2(s), i);
      Pow2Bit(s, i);
    }
  }

  lemma EmptyIffNoBit64(w: nat)
    requires w < U64_LIMIT
    ensures w == 0 <==> forall i :: 0 <= i < 64 ==> !Bit(w, i)
  {
    U64IsPow2();
    EmptyIffNoBit(w, 64);
  }

  /** `d` places after bit `n`, going round a word of `width` bits. */
  function Round(width: nat, n: nat, d: nat): (i: nat)
    requires width > 0
    ensures i < width
  {
    (d + n) % width
  }

  /** The lowest bit of a rotated word is the first set bit of the word, going round from bit `n`. */
  lemma FirstSetBit(width: nat, w: nat, n: nat, s: nat, d: nat)
    requires width > 0 && w < Pow2(width) && s < width && Bit(w, s) && d < width && Round(width, n, d) == s
    ensures TrailingZeros(RotateRight(width, w, n)) <= d
    ensures Bit(w, Round(width, n, TrailingZeros(RotateRight(width, w, n))))
  {
    var rotated := RotateRight(width, w, n);
    RotateRightBit(width, w, n, d);
    assert Bit(rotated, d);
    if rotated == 0 { ZeroHasNoBits(d); }
    TrailingZerosIsLowestBit(rotated);
    RotateRightBit(width, w, n, TrailingZeros(rotated));
  }
}
