/** Sequences of w-bit digits and the bit string they spell, most significant bit first. */
module BitStrings {
  import opened Int32

  predicate AreDigits(w: nat, digits: seq<int>) {
    forall i :: 0 <= i < |digits| ==> 0 <= digits[i] < Pow2(w)
  }

  /** All digits written one after the other, w bits each. */
  function Spell(w: nat, digits: seq<int>): (b: seq<bool>) {
    if |digits| == 0 then [] else Spell(w, digits[..|digits| - 1]) + Bits(digits[|digits| - 1], w)
  }

  /** Cuts a bit string into w-bit digits; an incomplete last digit is dropped. */
  function Cut(w: nat, b: seq<bool>): (digits: seq<int>)
    requires w > 0
    decreases |b|
  {
    if |b| < w then [] else [Value(b[..w])] + Cut(w, b[w..])
  }

  lemma {:induction false} SpellLength(w: nat, digits: seq<int>)
    ensures |Spell(w, digits)| == |digits| * w
  {
    if |digits| > 0 {
      var n := |digits| - 1;
      SpellLength(w, digits[..n]);
      assert (n + 1) * w == n * w + w;
    }
  }

  lemma SpellAppend(w: nat, digits: seq<int>, d: int)
    ensures Spell(w, digits + [d]) == Spell(w, digits) + Bits(d, w)
  {
  }

  lemma SpellTake(w: nat, digits: seq<int>, i: nat)
    requires i < |digits|
    ensures Spell(w, digits[..i + 1]) == Spell(w, digits[..i]) + Bits(digits[i], w)
  {
    assert digits[..i + 1] == digits[..i] + [digits[i]];
    SpellAppend(w, digits[..i], digits[i]);
  }

  lemma {:induction false} SpellConcat(w: nat, d: seq<int>, e: seq<int>)
    ensures Spell(w, d + e) == Spell(w, d) + Spell(w, e)
  {
    if |e| == 0 {
      assert d + e == d;
    } else {
      var front, last := e[..|e| - 1], e[|e| - 1];
      SpellConcat(w, d, front);
      assert d + e == (d + front) + [last];
      SpellAppend(w, d + front, last);
      assert Spell(w, e) == Spell(w, front) + Bits(last, w);
    }
  }

  /** Cutting undoes spelling, whatever incomplete digit follows. */
  lemma {:induction false} CutSpell(w: nat, digits: seq<int>, rest: seq<bool>)
    requires w > 0 && AreDigits(w, digits) && |rest| < w
    ensures Cut(w, Spell(w, digits) + rest) == digits
    decreases |digits|
  {
    if |digits| == 0 {
      assert Spell(w, digits) + rest == rest;
    } else {
      var d, tail := digits[0], digits[1..];
      SpellFirst(w, digits);
      var b := Spell(w, digits) + rest;
      assert b == Bits(d, w) + (Spell(w, tail) + rest);
      assert b[..w] == Bits(d, w);
      assert b[w..] == Spell(w, tail) + rest;
      ValueOfBits(d, w);
      CutSpell(w, tail, rest);
    }
  }

  lemma SpellFirst(w: nat, digits: seq<int>)
    requires |digits| > 0
    ensures Spell(w, digits) == Bits(digits[0], w) + Spell(w, digits[1..])
  {
    assert digits == [digits[0]] + digits[1..];
    SpellConcat(w, [digits[0]], digits[1..]);
    SpellAppend(w, [], digits[0]);
    assert [] + [digits[0]] == [digits[0]];
  }

  /** Spelling undoes cutting up to the incomplete last digit. */
  lemma {:induction false} SpellCut(w: nat, b: seq<bool>)
    requires w > 0
    ensures AreDigits(w, Cut(w, b))
    ensures var whole := Spell(w, Cut(w, b));
            |whole| <= |b| < |whole| + w && b[..|whole|] == whole
    decreases |b|
  {
    if |b| >= w {
      var digits := Cut(w, b);
      SpellCut(w, b[w..]);
      SpellFirst(w, digits);
      assert digits[1..] == Cut(w, b[w..]);
      BitsOfValue(b[..w]);
      var tail := Spell(w, digits[1..]);
      assert b == b[..w] + b[w..];
      assert b[..w + |tail|] == b[..w] + b[w..][..|tail|];
    }
  }

  /** A bit string of n whole digits is spelled by its digits. */
  lemma SpellCutWhole(w: nat, b: seq<bool>, n: nat)
    requires w > 0 && |b| == n * w
    ensures AreDigits(w, Cut(w, b)) && Spell(w, Cut(w, b)) == b && |Cut(w, b)| == n
  {
    var m := |Cut(w, b)|;
    SpellCut(w, b);
    SpellLength(w, Cut(w, b));
    TimesSandwich(m, n, w);
    assert b[..|b|] == b;
  }

  lemma TimesSandwich(m: nat, n: nat, w: nat)
    requires m * w <= n * w < m * w + w
    ensures m == n
  {
    if m < n {
      TimesMonotone(m + 1, n, w);
      assert false;
    } else if n < m {
      TimesMonotone(n + 1, m, w);
      assert false;
    }
  }

  lemma ConcatAssociative(a: seq<bool>, b: seq<bool>, c: seq<bool>)
    ensures a + b + c == a + (b + c)
  {
  }

  // ---------------------------------------------------------------------------
  // Converting with an accumulator that is never masked: the output digits
  // followed by the pending bits of the accumulator spell what was read so far
  // ---------------------------------------------------------------------------

  /** Shifting in one more n-bit digit. */
  lemma Feed(w: nat, digits: seq<int>, value: int, bits: nat, d: int, n: nat)
    requires bits + n <= 32 && 0 <= d < Pow2(n)
    ensures Spell(w, digits) + Bits(Or(ShiftLeft(value, n), d), bits + n)
         == Spell(w, digits) + Bits(value, bits) + Bits(d, n)
  {
    BitsOfPush(value, d, bits, n);
  }

  /** Moving the w oldest pending bits to the output. */
  lemma Emit(w: nat, digits: seq<int>, value: int, left: nat, mask: int, d: int)
    requires w <= 16 && AreDigits(w, digits) && mask == Pow2(w) - 1
    requires d == And(ShiftRight(value, left), mask)
    ensures AreDigits(w, digits + [d])
    ensures Spell(w, digits + [d]) + Bits(value, left) == Spell(w, digits) + Bits(value, w + left)
  {
    BitsOfAndMask(ShiftRight(value, left), w);
    BitsOfShiftRight(value, w, left);
    BitsSuffix(value, w, left);
    SpellAppend(w, digits, d);
    assert Bits(value, w + left) == Bits(d, w) + Bits(value, left);
  }

  /** Flushing the last pending bits, filled with zeros on the right. */
  lemma Flush(w: nat, digits: seq<int>, value: int, bits: nat, source: seq<bool>, mask: int, d: int)
    requires bits <= w <= 16 && AreDigits(w, digits) && mask == Pow2(w) - 1
    requires Spell(w, digits) + Bits(value, bits) == source
    requires d == And(ShiftLeft(value, w - bits), mask)
    ensures AreDigits(w, digits + [d])
    ensures Spell(w, digits + [d]) == source + Zeros(w - bits)
  {
    var gap := w - bits;
    BitsOfAndMask(ShiftLeft(value, gap), w);
    BitsOfShiftLeft(value, bits, gap);
    SpellAppend(w, digits, d);
    ConcatAssociative(Spell(w, digits), Bits(value, bits), Zeros(gap));
  }
}
