/** The base32 codec as arithmetic: one big-endian number, written in base 256 and in base 32. */
module Base32Numerals {
  import opened Int32
  import opened BitStrings
  import opened Base32

  /** The number whose big-endian digits these are. */
  function Number(base: nat, digits: seq<int>): int {
    if |digits| == 0 then 0 else base * Number(base, digits[..|digits| - 1]) + digits[|digits| - 1]
  }

  /** Table 3 of RFC 4648: A to Z stand for 0 to 25, 2 to 7 for 26 to 31. */
  function LetterValue(c: char): int {
    if 'A' <= c <= 'Z' then c as int - 'A' as int else c as int - '2' as int + 26
  }

  function Numeral(text: string): int {
    if |text| == 0 then 0 else 32 * Numeral(text[..|text| - 1]) + LetterValue(text[|text| - 1])
  }

  lemma {:induction false} AlphabetIsStandard()
    ensures |BASE32_ALPHABET| == 32
    ensures forall i :: 0 <= i < 26 ==> BASE32_ALPHABET[i] == 'A' + i as char
    ensures forall i :: 26 <= i < 32 ==> BASE32_ALPHABET[i] == '2' + (i - 26) as char
  {
  }

  lemma {:induction false} LetterOfDigit(k: int)
    requires 0 <= k < 32
    ensures LetterValue(CharOf(k)) == k
  {
    AlphabetIsStandard();
    if k < 26 {
      assert BASE32_ALPHABET[k] == 'A' + k as char;
    } else {
      assert BASE32_ALPHABET[k] == '2' + (k - 26) as char;
    }
  }

  lemma {:induction false} NumeralOfText(digits: seq<int>)
    requires AreDigits(5, digits)
    ensures Numeral(Text(digits)) == Number(32, digits)
  {
    if |digits| > 0 {
      var n := |digits| - 1;
      assert Pow2(5) == 32;
      NumeralOfText(digits[..n]);
      assert Text(digits)[..n] == Text(digits[..n]);
      LetterOfDigit(digits[n]);
    }
  }

  // ---------------------------------------------------------------------------
  // Bit strings as numbers
  // ---------------------------------------------------------------------------

  lemma {:induction false} ValueConcat(a: seq<bool>, b: seq<bool>)
    ensures Value(a + b) == Value(a) * Pow2(|b|) + Value(b)
  {
    if |b| == 0 {
      assert a + b == a;
    } else {
      var front := b[..|b| - 1];
      ValueConcat(a, front);
      assert (a + b)[..|a + b| - 1] == a + front;
      Doubled(Value(a), |b|);
      ValueOfLast(a + b);
      ValueOfLast(b);
      hide Value, Pow2;
    }
  }

  lemma {:induction false} ValueOfLast(b: seq<bool>)
    requires |b| > 0
    ensures Value(b) == 2 * Value(b[..|b| - 1]) + if b[|b| - 1] then 1 else 0
  {
  }

  lemma {:induction false} Doubled(v: int, n: nat)
    requires n > 0
    ensures v * Pow2(n) == 2 * (v * Pow2(n - 1))
  {
  }

  lemma {:induction false} ValueOfZeros(k: nat)
    ensures Value(Zeros(k)) == 0
  {
    if k > 0 {
      ValueOfZeros(k - 1);
      assert Zeros(k)[..k - 1] == Zeros(k - 1);
    }
  }

  lemma {:induction false} ValueOfSpelling(w: nat, digits: seq<int>)
    requires AreDigits(w, digits)
    ensures Value(Spell(w, digits)) == Number(Pow2(w), digits)
  {
    if |digits| > 0 {
      hide Value, Bits, Pow2;
      var n := |digits| - 1;
      ValueOfSpelling(w, digits[..n]);
      ValueConcat(Spell(w, digits[..n]), Bits(digits[n], w));
      ValueOfBits(digits[n], w);
      Commutes(Number(Pow2(w), digits[..n]), Pow2(w));
    } else {
      assert Spell(w, digits) == [];
    }
  }

  lemma {:induction false} Commutes(a: int, b: int)
    ensures a * b == b * a
  {
  }

  // ---------------------------------------------------------------------------
  // The codec
  // ---------------------------------------------------------------------------

  /** The encoding is the numeral of the input's number, shifted up to whole characters. */
  lemma {:induction false} EncodingIsNumeral(bytes: seq<Byte>)
    ensures var text := Encode(bytes);
            && |text| == (8 * |bytes| + 4) / 5
            && (forall c :: c in text ==> 'A' <= c <= 'Z' || '2' <= c <= '7')
            && Numeral(text) == Number(256, bytes) * Pow2(5 * |text| - 8 * |bytes|)
  {
    hide Bits, Value, Cut, Zeros;
    var k := PadLength(8 * |bytes|);
    var padded := Spell(8, bytes) + Zeros(k);
    var digits := Cut(5, padded);
    EncodingSpells(bytes);
    FiveBitDigits(digits);
    NumeralOfText(digits);
    PadIsUnique(|bytes|, (8 * |bytes| + 4) / 5, k);
    Powers();
    ValueOfSpelling(5, digits);
    BytesAreDigits(bytes);
    ValueOfSpelling(8, bytes);
    ValueConcat(Spell(8, bytes), Zeros(k));
    ValueOfZeros(k);
  }

  lemma {:induction false} Powers()
    ensures Pow2(5) == 32 && Pow2(8) == 256
  {
  }

  /** Decoding writes the number of the kept characters in bytes, without the bits of an incomplete last byte. */
  lemma {:induction false} DecodingIsNumber(text: string)
    ensures var s, bytes := Sanitize(text), Decode(text);
            && |bytes| == 5 * |s| / 8
            && (forall i :: 0 <= i < |bytes| ==> 0 <= bytes[i] < 256)
            && Number(256, bytes) == Numeral(s) / Pow2(5 * |s| - 8 * |bytes|)
  {
    hide Bits, Value, Cut, Spell;
    var s, bytes := Sanitize(text), Decode(text);
    var digits := Indices(s);
    AlphabetDigits(s);
    NumeralOfText(digits);
    var bits := Spell(5, digits);
    SpellLength(5, digits);
    SpellCut(8, bits);
    SpellLength(8, bytes);
    Powers();
    ValueOfSpelling(5, digits);
    ValueOfSpelling(8, bytes);
    var whole := Spell(8, bytes);
    var rest := bits[|whole|..];
    assert bits == whole + rest;
    ValueConcat(whole, rest);
    Quotient(Value(bits), Value(whole), Pow2(|rest|), Value(rest));
  }

  lemma {:induction false} Quotient(x: int, q: int, p: int, r: int)
    requires 0 <= r < p && x == q * p + r
    ensures q == x / p
  {
    DivUnique(x, p, q, r);
  }
}
