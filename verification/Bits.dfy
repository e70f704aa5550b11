/** Bitwise operations and byte orders on natural numbers. */
module Bits {
  import opened Model

  function Pow2(n: nat): (r: nat)
    ensures r > 0
  {
    if n == 0 then 1 else 2 * Pow2(n - 1)
  }

  lemma Pow2Byte(n: nat)
    ensures Pow2(n + 8) == 0x100 * Pow2(n)
  {
    assert Pow2(n + 4) == 16 * Pow2(n) by {
      assert Pow2(n + 2) == 4 * Pow2(n);
    }
    assert Pow2(n + 8) == 16 * Pow2(n + 4) by {
      assert Pow2(n + 6) == 4 * Pow2(n + 4);
    }
  }

  lemma Pow2Monotone(m: nat, n: nat)
    requires m <= n
    ensures Pow2(m) <= Pow2(n)
    decreases n - m
  {
    if m < n {
      Pow2Monotone(m + 1, n);
    }
  }

  lemma Pow2Values()
    ensures Pow2(0) == 1 && Pow2(8) == 0x100 && Pow2(16) == 0x1_0000 && Pow2(32) == 0x1_0000_0000
  {
    Pow2Byte(0);
    Pow2Byte(8);
    Pow2Byte(16);
    Pow2Byte(24);
  }

  /** `a & b`. */
  function BitAnd(a: nat, b: nat): nat {
    if a == 0 || b == 0 then 0
    else (if a % 2 == 1 && b % 2 == 1 then 1 else 0) + 2 * BitAnd(a / 2, b / 2)
  }

  /** `a | b`. */
  function BitOr(a: nat, b: nat): nat
    decreases a + b
  {
    if a == 0 && b == 0 then 0
    else (if a % 2 == 1 || b % 2 == 1 then 1 else 0) + 2 * BitOr(a / 2, b / 2)
  }

  /** `value << count` in a word of `width` bits: each step drops the top bit. */
  function ShiftLeft(value: nat, count: nat, width: nat): (r: nat)
    requires value < Pow2(width)
    ensures r < Pow2(width)
    decreases count
  {
    if count == 0 then value
    else
      var doubled := 2 * ShiftLeft(value, count - 1, width);
      if doubled < Pow2(width) then doubled else doubled - Pow2(width)
  }

  lemma {:induction false} AllOnesShifted(count: nat, width: nat)
    requires count <= width
    ensures ShiftLeft(Pow2(width) - 1, count, width) == Pow2(width) - Pow2(count)
  {
    Pow2Monotone(count, width);
    if count > 0 {
      AllOnesShifted(count - 1, width);
    }
  }

  lemma {:induction false} OneShifted(count: nat, width: nat)
    requires count < width
    ensures Pow2(width) > 1
    ensures ShiftLeft(1, count, width) == Pow2(count)
  {
    Pow2Monotone(count + 1, width);
    if count > 0 {
      OneShifted(count - 1, width);
    }
  }

  // --- Rounding to a power of two --------------------------------------------------

  /** `a` rounded down to a multiple of `2^low`. */
  function Floor(a: nat, low: nat): nat
    decreases low
  {
    if low == 0 then a else 2 * Floor(a / 2, low - 1)
  }

  lemma {:induction false} FloorBounds(a: nat, low: nat)
    ensures Floor(a, low) <= a < Floor(a, low) + Pow2(low)
    decreases low
  {
    if low > 0 {
      FloorBounds(a / 2, low - 1);
    }
  }

  /** The numbers with one floor are exactly the `2^low` numbers from it on. */
  lemma {:induction false} FloorIsTheBlock(a: nat, b: nat, low: nat)
    ensures Floor(b, low) == Floor(a, low) <==> Floor(a, low) <= b < Floor(a, low) + Pow2(low)
    decreases low
  {
    if low > 0 {
      FloorIsTheBlock(a / 2, b / 2, low - 1);
    }
  }

  lemma {:induction false} FloorTwice(a: nat, m: nat, n: nat)
    ensures Floor(Floor(a, m), n) == Floor(a, if m <= n then n else m)
    decreases m + n
  {
    if m > 0 && n > 0 {
      FloorTwice(a / 2, m - 1, n - 1);
    }
  }

  lemma {:induction false} BlockEndFits(a: nat, low: nat, width: nat)
    requires a < Pow2(width) && low <= width
    ensures Floor(a, low) + Pow2(low) <= Pow2(width)
    decreases low
  {
    if low > 0 {
      BlockEndFits(a / 2, low - 1, width - 1);
    }
  }

  /** Keeping every bit. */
  lemma {:induction false} AndAllOnes(a: nat, width: nat)
    requires a < Pow2(width)
    ensures BitAnd(a, Pow2(width) - 1) == a
  {
    if a > 0 {
      assert width > 0;
      var m := Pow2(width) - 1;
      assert m % 2 == 1 && m / 2 == Pow2(width - 1) - 1;
      AndAllOnes(a / 2, width - 1);
    }
  }

  /** Masking with the ones from bit `low` up rounds down. */
  lemma {:induction false} AndHighMask(a: nat, low: nat, width: nat)
    requires a < Pow2(width) && low <= width
    ensures Pow2(low) <= Pow2(width)
    ensures BitAnd(a, Pow2(width) - Pow2(low)) == Floor(a, low)
    decreases low
  {
    Pow2Monotone(low, width);
    if low == 0 {
      AndAllOnes(a, width);
    } else {
      var m := Pow2(width) - Pow2(low);
      AndHighMask(a / 2, low - 1, width - 1);
      assert m % 2 == 0 && m / 2 == Pow2(width - 1) - Pow2(low - 1);
      if m == 0 {
        FloorBounds(a / 2, low - 1);
        assert BitAnd(a / 2, m / 2) == 0;
      } else if a == 0 {
        assert BitAnd(a / 2, m / 2) == 0;
      }
    }
  }

  /** Setting every bit below `low` goes to the end of the block. */
  lemma {:induction false} OrLowMask(a: nat, low: nat)
    ensures BitOr(a, Pow2(low) - 1) == Floor(a, low) + (Pow2(low) - 1)
    decreases low
  {
    if low == 0 {
      OrZero(a);
    } else {
      var m := Pow2(low) - 1;
      assert m % 2 == 1 && m / 2 == Pow2(low - 1) - 1;
      OrLowMask(a / 2, low - 1);
    }
  }

  lemma {:induction false} OrZero(a: nat)
    ensures BitOr(a, 0) == a
  {
    if a > 0 {
      OrZero(a / 2);
    }
  }

  // --- Byte orders ----------------------------------------------------------------

  /** `uN::from_be_bytes`. */
  function FromBe(bytes: seq<byte>): nat {
    if bytes == [] then 0 else FromBe(bytes[..|bytes| - 1]) * 0x100 + bytes[|bytes| - 1]
  }

  /** `to_be_bytes` of a word of `width` bytes. */
  function ToBe(value: nat, width: nat): (bytes: seq<byte>)
    ensures |bytes| == width
    decreases width
  {
    if width == 0 then [] else ToBe(value / 0x100, width - 1) + [value % 0x100]
  }

  lemma {:induction false} FromToBe(value: nat, width: nat)
    requires value < Pow2(8 * width)
    ensures FromBe(ToBe(value, width)) == value
  {
    if width > 0 {
      Pow2Byte(8 * (width - 1));
      FromToBe(value / 0x100, width - 1);
      assert ToBe(value, width)[..width - 1] == ToBe(value / 0x100, width - 1);
    }
  }

  lemma {:induction false} ToFromBe(bytes: seq<byte>)
    ensures FromBe(bytes) < Pow2(8 * |bytes|)
    ensures ToBe(FromBe(bytes), |bytes|) == bytes
  {
    if bytes != [] {
      var front := bytes[..|bytes| - 1];
      ToFromBe(front);
      Pow2Byte(8 * |front|);
      assert FromBe(bytes) / 0x100 == FromBe(front);
    }
  }
}
