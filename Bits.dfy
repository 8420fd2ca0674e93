/**
 * Unsigned machine values of the driver, on mathematical integers.
 *
 * C# promotes `byte` operands to `int` before any arithmetic, and the button
 * word is a `ulong` built with `<<` and `|`.  Bytes are therefore a bounded
 * integer type, and the two bitwise operators are defined here on naturals,
 * bit by bit, with the facts the decoder and the display encoder rely on.
 */
module Bits {

  /** A C# `byte`. */
  newtype byte = x: int | 0 <= x < 256

  function Pow2(k: nat): (r: nat)
    ensures r >= 1
  {
    if k == 0 then 1 else 2 * Pow2(k - 1)
  }

  /** Bit `k` of `x` is set. */
  predicate Bit(x: nat, k: nat) {
    (x / Pow2(k)) % 2 == 1
  }

  /** Bitwise OR (C# `|` on unsigned operands), least significant bit first. */
  function Or(a: nat, b: nat): nat
    decreases a + b
  {
    if a == 0 then b
    else if b == 0 then a
    else 2 * Or(a / 2, b / 2) + (if a % 2 == 1 || b % 2 == 1 then 1 else 0)
  }

  /** C# `x << k` on a `ulong`: the count is taken modulo 64 and the result truncated to 64 bits. */
  function ShiftLeft64(x: nat, k: nat): (r: nat)
    ensures r < Pow2(64)
  {
    (x * Pow2(k % 64)) % Pow2(64)
  }

  /** Little-endian unsigned value of a byte string (what `BitConverter.ToUInt32`/`ToUInt16` read on x86). */
  function LeValue(bs: seq<byte>): (r: nat)
    ensures r < Pow2(8 * |bs|)
  {
    if bs == [] then 0
    else
      assert Pow2(8 * |bs|) == 256 * Pow2(8 * (|bs| - 1)) by { Pow2Add(8, 8 * (|bs| - 1)); Pow2Byte(); }
      bs[0] as nat + 256 * LeValue(bs[1..])
  }

  /** The `n` little-endian bytes of the low `8 * n` bits of `x`. */
  function LeBytes(x: nat, n: nat): (r: seq<byte>)
    ensures |r| == n
  {
    if n == 0 then [] else [(x % 256) as byte] + LeBytes(x / 256, n - 1)
  }

  lemma Pow2Byte()
    ensures Pow2(8) == 256
  {
  }

  lemma {:induction false} Pow2SmallValues(i: nat)
    requires i < 16
    ensures Pow2(i) == [1, 2, 4, 8, 16, 32, 64, 128, 256, 512, 1024, 2048, 4096, 8192, 16384, 32768][i]
  {
    if i > 0 {
      Pow2SmallValues(i - 1);
    }
  }

  /** The powers the report layout uses, as literals. */
  lemma Pow2Values()
    ensures Pow2(8) == 0x100 && Pow2(12) == 0x1000 && Pow2(16) == 0x1_0000
    ensures Pow2(32) == 0x1_0000_0000 && Pow2(48) == 0x1_0000_0000_0000
    ensures Pow2(64) == 0x1_0000_0000_0000_0000
  {
    Pow2SmallValues(8);
    Pow2SmallValues(12);
    Pow2SmallValues(15);
    Pow2Add(16, 0);
    Pow2Add(16, 16);
    Pow2Add(32, 16);
    Pow2Add(32, 32);
  }

  lemma {:induction false} Pow2Add(a: nat, b: nat)
    ensures Pow2(a + b) == Pow2(a) * Pow2(b)
  {
    if a > 0 {
      Pow2Add(a - 1, b);
    }
  }

  lemma {:induction false} Pow2Monotone(a: nat, b: nat)
    requires a <= b
    ensures Pow2(a) <= Pow2(b)
  {
    if a < b {
      Pow2Monotone(a, b - 1);
    }
  }

  /** Euclidean division is unique. */
  lemma DivUnique(x: nat, d: nat, q: nat, r: nat)
    requires d > 0 && r < d && x == d * q + r
    ensures x / d == q && x % d == r
  {
    if x / d < q {
      MulStep(d, x / d, q);
      assert false;
    } else if x / d > q {
      MulStep(d, q, x / d);
      assert false;
    }
  }

  lemma MulStep(d: nat, a: nat, b: nat)
    requires a < b
    ensures d * a + d <= d * b
  {
    var k := b - a - 1;
    assert d * b == d * (a + 1 + k);
    assert d * (a + 1 + k) == d * a + d + d * k;
    assert d * k >= 0;
  }

  lemma DivTwice(x: nat, p: nat)
    requires p > 0
    ensures x / (2 * p) == (x / 2) / p
  {
    var h := x / 2;
    var s := h / p;
    assert x == 2 * h + x % 2;
    assert h == p * s + h % p;
    assert x == (2 * p) * s + (2 * (h % p) + x % 2);
    DivUnique(x, 2 * p, s, 2 * (h % p) + x % 2);
  }

  /** Bit `k + 1` of `x` is bit `k` of `x / 2`. */
  lemma BitHalf(x: nat, k: nat)
    ensures Bit(x, k + 1) <==> Bit(x / 2, k)
  {
    DivTwice(x, Pow2(k));
  }

  /** A value below `2^k` has no bit at position `k` or above. */
  lemma BitAboveWidth(x: nat, k: nat, j: nat)
    requires x < Pow2(k) && k <= j
    ensures !Bit(x, j)
  {
    Pow2Monotone(k, j);
    DivUnique(x, Pow2(j), 0, x);
  }

  /** OR acts bit by bit: bit `k` of `a | b` is set iff it is set in `a` or in `b`. */
  lemma {:induction false} OrBit(a: nat, b: nat, k: nat)
    ensures Bit(Or(a, b), k) <==> Bit(a, k) || Bit(b, k)
    decreases k
  {
    if a == 0 {
      assert !Bit(a, k) by { DivUnique(0, Pow2(k), 0, 0); }
    } else if b == 0 {
      assert !Bit(b, k) by { DivUnique(0, Pow2(k), 0, 0); }
    } else {
      var low := if a % 2 == 1 || b % 2 == 1 then 1 else 0;
      var o := Or(a, b);
      assert o == 2 * Or(a / 2, b / 2) + low;
      if k == 0 {
        assert o % 2 == low;
      } else {
        assert o / 2 == Or(a / 2, b / 2);
        BitHalf(o, k - 1);
        BitHalf(a, k - 1);
        BitHalf(b, k - 1);
        OrBit(a / 2, b / 2, k - 1);
      }
    }
  }

  lemma {:induction false} OrCommutes(a: nat, b: nat)
    ensures Or(a, b) == Or(b, a)
    decreases a + b
  {
    if a != 0 && b != 0 {
      OrCommutes(a / 2, b / 2);
    }
  }

  /**
   * OR of a value shifted left by `k` with a value below `2^k` lays the two side by side:
   * it is the same as adding them, and nothing is lost.
   */
  lemma {:induction false} OrDisjoint(a: nat, k: nat, b: nat)
    requires b < Pow2(k)
    ensures Or(a * Pow2(k), b) == a * Pow2(k) + b
    decreases k
  {
    var hi := a * Pow2(k);
    if hi == 0 || b == 0 {
    } else {
      assert k > 0;
      assert hi == 2 * (a * Pow2(k - 1));
      assert hi / 2 == a * Pow2(k - 1) && hi % 2 == 0;
      OrDisjoint(a, k - 1, b / 2);
      assert Or(hi, b) == 2 * Or(hi / 2, b / 2) + b % 2;
    }
  }

  /** Bits of `a * 2^k` at positions `k + j` are the bits of `a`; those below `k` are clear. */
  lemma {:induction false} BitShifted(a: nat, k: nat, j: nat)
    ensures Bit(a * Pow2(k), k + j) <==> Bit(a, j)
    ensures j < k ==> !Bit(a * Pow2(k), j)
    decreases k
  {
    if k > 0 {
      var x := a * Pow2(k);
      assert x == 2 * (a * Pow2(k - 1));
      assert x / 2 == a * Pow2(k - 1) && x % 2 == 0;
      BitHalf(x, k - 1 + j);
      BitShifted(a, k - 1, j);
      if j < k {
        if j == 0 {
          assert x / Pow2(0) == x;
        } else {
          BitHalf(x, j - 1);
          BitShifted(a, k - 1, j - 1);
        }
      }
    }
  }

  /** Decoding the little-endian bytes of a value that fits gives the value back. */
  lemma {:induction false} LeValueOfBytes(x: nat, n: nat)
    requires x < Pow2(8 * n)
    ensures LeValue(LeBytes(x, n)) == x
  {
    if n > 0 {
      Pow2Add(8, 8 * (n - 1));
      Pow2Byte();
      DivUnique(x, 256, x / 256, x % 256);
      LeValueOfBytes(x / 256, n - 1);
      assert LeBytes(x, n)[1..] == LeBytes(x / 256, n - 1);
    }
  }

  /** Encoding the value of a byte string gives the byte string back. */
  lemma {:induction false} LeBytesOfValue(bs: seq<byte>)
    ensures LeBytes(LeValue(bs), |bs|) == bs
  {
    if bs != [] {
      var v := LeValue(bs);
      DivUnique(v, 256, LeValue(bs[1..]), bs[0] as nat);
      LeBytesOfValue(bs[1..]);
    }
  }
}
