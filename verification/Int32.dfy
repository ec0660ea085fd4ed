/** ECMAScript's 32-bit bitwise operators, on mathematical integers, and the bit strings that explain them. */
module Int32 {

  function Pow2(n: nat): (p: nat)
    ensures p >= 1
  {
    if n == 0 then 1 else 2 * Pow2(n - 1)
  }

  /** Wrap-around to the signed 32-bit range. */
  function ToInt32(x: int): (r: int)
    ensures -0x8000_0000 <= r < 0x8000_0000
    ensures (x - r) % 0x1_0000_0000 == 0
  {
    (x + 0x8000_0000) % 0x1_0000_0000 - 0x8000_0000
  }

  function ShiftLeft(x: int, n: nat): int {
    ToInt32(x * Pow2(n))
  }

  /** Arithmetic (sign-propagating) shift: division rounding down. */
  function ShiftRight(x: int, n: nat): int {
    x / Pow2(n)
  }

  function OrBits(width: nat, x: int, y: int): nat {
    if width == 0 then 0
    else 2 * OrBits(width - 1, x / 2, y / 2) + (if x % 2 == 1 || y % 2 == 1 then 1 else 0)
  }

  function AndBits(width: nat, x: int, y: int): nat {
    if width == 0 then 0
    else 2 * AndBits(width - 1, x / 2, y / 2) + (if x % 2 == 1 && y % 2 == 1 then 1 else 0)
  }

  function Or(x: int, y: int): int {
    ToInt32(OrBits(32, x, y))
  }

  function And(x: int, y: int): int {
    ToInt32(AndBits(32, x, y))
  }

  // ---------------------------------------------------------------------------
  // Bit strings, most significant bit first
  // ---------------------------------------------------------------------------

  /** The k lowest bits of x in two's complement. */
  function Bits(x: int, k: nat): (b: seq<bool>)
    ensures |b| == k
    decreases k, x
  {
    if k == 0 then [] else Bits(x / 2, k - 1) + [x % 2 == 1]
  }

  function Zeros(k: nat): (z: seq<bool>)
    ensures |z| == k && forall i :: 0 <= i < k ==> !z[i]
  {
    seq(k, i => false)
  }

  function Value(b: seq<bool>): (v: nat)
    ensures v < Pow2(|b|)
  {
    if |b| == 0 then 0 else 2 * Value(b[..|b| - 1]) + (if b[|b| - 1] then 1 else 0)
  }

  lemma {:induction false} BitsOfValue(b: seq<bool>)
    ensures Bits(Value(b), |b|) == b
  {
    if |b| > 0 {
      BitsOfValue(b[..|b| - 1]);
    }
  }

  lemma {:induction false} ValueOfBits(x: int, k: nat)
    requires 0 <= x < Pow2(k)
    ensures Value(Bits(x, k)) == x
  {
    if k > 0 {
      ValueOfBits(x / 2, k - 1);
      assert Bits(x, k)[..k - 1] == Bits(x / 2, k - 1);
    }
  }

  lemma {:induction false} BitsIgnoreHigh(x: int, c: int, k: nat, n: nat)
    requires k <= n
    ensures Bits(x + c * Pow2(n), k) == Bits(x, k)
    decreases k
  {
    if k > 0 {
      TimesTwo(c, n);
      Halves(x, c * Pow2(n - 1));
      BitsIgnoreHigh(x / 2, c, k - 1, n - 1);
    }
  }

  lemma {:induction false} TimesTwo(c: int, n: nat)
    requires n > 0
    ensures c * Pow2(n) == 2 * (c * Pow2(n - 1))
  {
  }

  lemma {:induction false} Halves(x: int, m: int)
    ensures (x + 2 * m) / 2 == x / 2 + m && (x + 2 * m) % 2 == x % 2
  {
  }

  lemma Pow2Of32()
    ensures Pow2(32) == 0x1_0000_0000
  {
    assert Pow2(8) == 256;
    assert Pow2(16) == 65536;
    assert Pow2(24) == 0x100_0000;
  }

  /** Wrapping at 32 bits does not disturb the 32 lowest bits. */
  lemma BitsOfToInt32(x: int, k: nat)
    requires k <= 32
    ensures Bits(ToInt32(x), k) == Bits(x, k)
  {
    var c := (ToInt32(x) - x) / 0x1_0000_0000;
    Pow2Of32();
    assert ToInt32(x) == x + c * Pow2(32);
    BitsIgnoreHigh(x, c, k, 32);
  }

  lemma {:induction false} BitsOfScaled(x: int, k: nat, n: nat)
    ensures Bits(x * Pow2(n), k + n) == Bits(x, k) + Zeros(n)
  {
    if n == 0 {
      assert Bits(x, k) + Zeros(0) == Bits(x, k);
    } else {
      var y := x * Pow2(n - 1);
      assert x * Pow2(n) == 2 * y;
      BitsOfScaled(x, k, n - 1);
      assert Zeros(n) == Zeros(n - 1) + [false];
    }
  }

  lemma BitsOfShiftLeft(x: int, k: nat, n: nat)
    requires k + n <= 32
    ensures Bits(ShiftLeft(x, n), k + n) == Bits(x, k) + Zeros(n)
  {
    BitsOfToInt32(x * Pow2(n), k + n);
    BitsOfScaled(x, k, n);
  }

  lemma DivDiv(x: int, p: int)
    requires p >= 1
    ensures x / (2 * p) == x / 2 / p
  {
    var q, r := x / 2 / p, x / 2 % p;
    assert x / 2 == q * p + r;
    assert x == 2 * (q * p + r) + x % 2;
    var s := 2 * r + x % 2;
    assert x == q * (2 * p) + s && 0 <= s < 2 * p;
    DivUnique(x, 2 * p, q, s);
  }

  lemma TimesMonotone(a: int, b: int, d: nat)
    requires a <= b
    ensures a * d <= b * d
  {
  }

  lemma DivUnique(x: int, d: int, q: int, s: int)
    requires d >= 1 && x == q * d + s && 0 <= s < d
    ensures x / d == q && x % d == s
  {
    var q', s' := x / d, x % d;
    assert x == q' * d + s';
    if q' < q {
      TimesMonotone(q' + 1, q, d);
      assert false;
    } else if q < q' {
      TimesMonotone(q + 1, q', d);
      assert false;
    }
  }

  lemma {:induction false} BitsOfShiftRight(x: int, k: nat, n: nat)
    ensures Bits(ShiftRight(x, n), k) == Bits(x, k + n)[..k]
    decreases n
  {
    if n == 0 {
      assert Bits(x, k)[..k] == Bits(x, k);
    } else {
      DivDiv(x, Pow2(n - 1));
      BitsOfShiftRight(x / 2, k, n - 1);
    }
  }

  lemma {:induction false} BitsOfOrBits(width: nat, x: int, y: int, k: nat)
    requires k <= width
    ensures forall i :: 0 <= i < k ==> Bits(OrBits(width, x, y), k)[i] == (Bits(x, k)[i] || Bits(y, k)[i])
  {
    if k > 0 {
      BitsOfOrBits(width - 1, x / 2, y / 2, k - 1);
    }
  }

  lemma {:induction false} AndMask(width: nat, x: int, k: nat)
    requires k <= width
    ensures AndBits(width, x, Pow2(k) - 1) == x % Pow2(k)
  {
    if k == 0 {
      AndZero(width, x);
    } else {
      var p := Pow2(k - 1);
      assert (2 * p - 1) / 2 == p - 1;
      AndMask(width - 1, x / 2, k - 1);
      ModDouble(x, p);
    }
  }

  lemma ModDouble(x: int, p: int)
    requires p >= 1
    ensures x % (2 * p) == 2 * (x / 2 % p) + x % 2
  {
    var q, r := x / 2 / p, x / 2 % p;
    assert x / 2 == q * p + r;
    assert x == q * (2 * p) + (2 * r + x % 2);
    DivUnique(x, 2 * p, q, 2 * r + x % 2);
  }

  lemma {:induction false} AndZero(width: nat, x: int)
    ensures AndBits(width, x, 0) == 0
  {
    if width > 0 {
      AndZero(width - 1, x / 2);
    }
  }

  lemma {:induction false} BitsOfMod(x: int, k: nat)
    ensures 0 <= x % Pow2(k) < Pow2(k)
    ensures Bits(x % Pow2(k), k) == Bits(x, k)
  {
    var p := Pow2(k);
    assert x % p == x + (-(x / p)) * p;
    BitsIgnoreHigh(x, -(x / p), k, k);
  }

  /** Masking with 2^k - 1 keeps exactly the k lowest bits, also of a negative accumulator. */
  lemma BitsOfAndMask(x: int, k: nat)
    requires k <= 16
    ensures 0 <= And(x, Pow2(k) - 1) < Pow2(k)
    ensures Bits(And(x, Pow2(k) - 1), k) == Bits(x, k)
  {
    AndIsMod(x, k);
    BitsOfMod(x, k);
  }

  lemma ToInt32Small(r: int)
    requires 0 <= r < Pow2(16)
    ensures ToInt32(r) == r
  {
    assert Pow2(8) == 256;
    assert Pow2(16) == 65536;
  }

  lemma {:induction false} Pow2Grows(a: nat, b: nat)
    requires a <= b
    ensures Pow2(a) <= Pow2(b)
  {
    if a < b {
      Pow2Grows(a, b - 1);
    }
  }

  /** Shifting left by n and OR-ing in an n-bit digit appends the digit's bits. */
  lemma BitsOfPush(value: int, digit: int, k: nat, n: nat)
    requires k + n <= 32 && 0 <= digit < Pow2(n)
    ensures Bits(Or(ShiftLeft(value, n), digit), k + n) == Bits(value, k) + Bits(digit, n)
  {
    var high := ShiftLeft(value, n);
    BitsOfToInt32(OrBits(32, high, digit), k + n);
    BitsOfOrBits(32, high, digit, k + n);
    BitsOfShiftLeft(value, k, n);
    BitsOfSmall(digit, k, n);
    assert Bits(Or(high, digit), k + n) == Bits(value, k) + Bits(digit, n);
  }

  lemma {:induction false} BitsOfSmall(x: int, k: nat, n: nat)
    requires 0 <= x < Pow2(n)
    ensures Bits(x, k + n) == Zeros(k) + Bits(x, n)
  {
    if n == 0 {
      BitsOfZero(k);
      assert Zeros(k) + Bits(x, 0) == Zeros(k);
    } else {
      BitsOfSmall(x / 2, k, n - 1);
    }
  }

  lemma {:induction false} BitsOfZero(k: nat)
    ensures Bits(0, k) == Zeros(k)
  {
    if k > 0 {
      BitsOfZero(k - 1);
      assert Zeros(k) == Zeros(k - 1) + [false];
    }
  }

  lemma {:induction false} BitsSuffix(x: int, k: nat, n: nat)
    ensures Bits(x, k + n)[k..] == Bits(x, n)
    decreases n
  {
    if n > 0 {
      BitsSuffix(x / 2, k, n - 1);
      assert Bits(x, k + n)[k..] == Bits(x / 2, k + n - 1)[k..] + [x % 2 == 1];
    }
  }

  lemma {:induction false} OrBitsZero(width: nat, x: int)
    ensures OrBits(width, x, 0) == x % Pow2(width)
  {
    if width > 0 {
      OrBitsZero(width - 1, x / 2);
      ModDouble(x, Pow2(width - 1));
    }
  }

  lemma {:induction false} OrBitsDisjoint(width: nat, q: int, y: int, n: nat)
    requires 0 <= y < Pow2(n) && n <= width
    ensures OrBits(width, q * Pow2(n), y) == (q * Pow2(n) + y) % Pow2(width)
  {
    var x := q * Pow2(n);
    if n == 0 {
      OrBitsZero(width, x);
    } else {
      var half := q * Pow2(n - 1);
      assert x == 2 * half;
      OrBitsDisjoint(width - 1, q, y / 2, n - 1);
      ModDouble(x + y, Pow2(width - 1));
      assert (x + y) / 2 == half + y / 2;
    }
  }

  /** OR-ing a number into cleared low bits adds it. */
  lemma OrIsSum(q: int, y: int, n: nat)
    requires n <= 32 && 0 <= y < Pow2(n)
    requires 0 <= q * Pow2(n) && q * Pow2(n) + y < 0x8000_0000
    ensures Or(q * Pow2(n), y) == q * Pow2(n) + y
  {
    OrBitsDisjoint(32, q, y, n);
    Pow2Of32();
    ToInt32InRange(q * Pow2(n) + y);
  }

  lemma ToInt32InRange(x: int)
    requires 0 <= x < 0x8000_0000
    ensures ToInt32(x % 0x1_0000_0000) == x
  {
  }

  /** Masking with 2^k - 1 is the remainder by 2^k. */
  lemma AndIsMod(x: int, k: nat)
    requires k <= 16
    ensures And(x, Pow2(k) - 1) == x % Pow2(k)
  {
    hide AndBits, ToInt32;
    AndMask(32, x, k);
    BitsOfMod(x, k);
    Pow2Grows(k, 16);
    ToInt32Small(x % Pow2(k));
  }
}
