/** The base32 codec of the TOTP service against the bit-string definition of section 6 of RFC 4648. */
module Base32 {
  import opened Int32
  import opened BitStrings

  type Byte = x: int | 0 <= x < 256

  const BASE32_ALPHABET: string := "ABCDEFGHIJKLMNOPQRSTUVWXYZ234567"

  /** First position of c in s, or -1. */
  function IndexOf(s: string, c: char): (k: int)
    ensures -1 <= k < |s|
    ensures k == -1 ==> c !in s
    ensures k >= 0 ==> s[k] == c && c !in s[..k]
  {
    if |s| == 0 then -1
    else if s[0] == c then 0
    else
      var k := IndexOf(s[1..], c);
      if k == -1 then -1 else
        assert s[..k + 1] == [s[0]] + s[1..][..k];
        k + 1
  }

  function CharOf(digit: int): char {
    if 0 <= digit < 32 then BASE32_ALPHABET[digit] else '?'
  }

  function DigitOf(c: char): int {
    IndexOf(BASE32_ALPHABET, c)
  }

  /** The character class A-Z2-7 of the sanitizer. */
  predicate InAlphabet(c: char) {
    'A' <= c <= 'Z' || '2' <= c <= '7'
  }

  lemma DigitOfChar(c: char)
    requires InAlphabet(c)
    ensures 0 <= DigitOf(c) < 32 && CharOf(DigitOf(c)) == c
  {
  }

  lemma CharOfDigit(k: int)
    requires 0 <= k < 32
    ensures InAlphabet(CharOf(k)) && DigitOf(CharOf(k)) == k
  {
    var A := BASE32_ALPHABET;
    assert forall i :: 0 <= i < 26 ==> A[i] == 'A' + i as char;
    assert forall i :: 26 <= i < 32 ==> A[i] == '2' + (i - 26) as char;
    assert A[k] in A[..k + 1];
  }

  /**
   * What the sanitizer keeps of a character: the characters of the alphabet in its Unicode upper case. Beside ASCII
   * these are the few characters whose upper case contains an ASCII letter.
   */
  function Kept(c: char): (t: string)
    ensures forall d :: d in t ==> InAlphabet(d)
  {
    if InAlphabet(c) then [c]
    else if 'a' <= c <= 'z' then [c - 'a' + 'A']
    else match c
      case '\U{00DF}' => "SS"
      case '\U{0131}' => "I"
      case '\U{0149}' => "N"
      case '\U{017F}' => "S"
      case '\U{01F0}' => "J"
      case '\U{1E96}' => "H"
      case '\U{1E97}' => "T"
      case '\U{1E98}' => "W"
      case '\U{1E99}' => "Y"
      case '\U{1E9A}' => "A"
      case '\U{FB00}' => "FF"
      case '\U{FB01}' => "FI"
      case '\U{FB02}' => "FL"
      case '\U{FB03}' => "FFI"
      case '\U{FB04}' => "FFL"
      case '\U{FB05}' => "ST"
      case '\U{FB06}' => "ST"
      case _ => ""
  }

  /** The lower case of a character, as far as the alphabet is concerned. */
  function Lower(c: char): string {
    if 'A' <= c <= 'Z' then [c - 'A' + 'a']
    else match c
      case '\U{0130}' => "i\U{0307}"
      case '\U{1E9E}' => "\U{00DF}"
      case '\U{212A}' => "k"
      case _ => [c]
  }

  /** The capital I with a dot, the capital sharp s, the Kelvin sign: dropped as they are, but not in lower case. */
  predicate GainsLetters(c: char) {
    c == '\U{0130}' || c == '\U{1E9E}' || c == '\U{212A}'
  }

  /** Upper-cases and drops every character outside the alphabet. */
  function Sanitize(s: string): (t: string)
    ensures forall c :: c in t ==> InAlphabet(c)
  {
    if |s| == 0 then [] else Kept(s[0]) + Sanitize(s[1..])
  }

  function LowerCase(s: string): string {
    if |s| == 0 then [] else Lower(s[0]) + LowerCase(s[1..])
  }

  function Text(digits: seq<int>): (s: string)
    ensures |s| == |digits|
  {
    seq(|digits|, i requires 0 <= i < |digits| => CharOf(digits[i]))
  }

  function Indices(s: string): (digits: seq<int>)
    ensures |digits| == |s|
  {
    seq(|s|, i requires 0 <= i < |s| => DigitOf(s[i]))
  }

  /** Number of zero bits that fill n bits up to a multiple of five. */
  function PadLength(n: nat): nat {
    (5 - n % 5) % 5
  }

  /** RFC 4648: the bit string of the input, zero-filled to whole characters, five bits a character. */
  function Encode(bytes: seq<Byte>): string {
    Text(Cut(5, Spell(8, bytes) + Zeros(PadLength(8 * |bytes|))))
  }

  /** The bit string of the kept characters, eight bits a byte. */
  function Decode(text: string): seq<int> {
    Cut(8, Spell(5, Indices(Sanitize(text))))
  }

  /** The fill is the only one below five that completes the last character. */
  lemma PadIsUnique(n: nat, chars: nat, k: nat)
    requires k < 5
    ensures 8 * n + k == chars * 5 <==> k == PadLength(8 * n) && chars == (8 * n + 4) / 5
  {
  }

  // ---------------------------------------------------------------------------
  // Round trip and formatting
  // ---------------------------------------------------------------------------

  lemma BytesAreDigits(bytes: seq<Byte>)
    ensures AreDigits(8, bytes)
  {
  }

  lemma {:induction false} FiveBitDigits(digits: seq<int>)
    requires AreDigits(5, digits)
    ensures Indices(Text(digits)) == digits
    ensures forall c :: c in Text(digits) ==> InAlphabet(c)
  {
    assert Pow2(5) == 32;
    forall i | 0 <= i < |digits|
      ensures InAlphabet(Text(digits)[i]) && DigitOf(Text(digits)[i]) == digits[i]
    {
      CharOfDigit(digits[i]);
    }
  }

  lemma AlphabetDigits(s: string)
    requires forall c :: c in s ==> InAlphabet(c)
    ensures Text(Indices(s)) == s && AreDigits(5, Indices(s))
  {
    assert Pow2(5) == 32;
    forall i | 0 <= i < |s|
      ensures 0 <= DigitOf(s[i]) < 32 && CharOf(DigitOf(s[i])) == s[i]
    {
      DigitOfChar(s[i]);
    }
  }

  lemma {:induction false} SanitizeKeeps(s: string)
    requires forall c :: c in s ==> InAlphabet(c)
    ensures Sanitize(s) == s
  {
    if |s| > 0 {
      assert InAlphabet(s[0]);
      SanitizeKeeps(s[1..]);
    }
  }

  /** The digits of an encoding spell the input's bits followed by the zero fill. */
  lemma {:induction false} EncodingSpells(bytes: seq<Byte>)
    ensures var padded := Spell(8, bytes) + Zeros(PadLength(8 * |bytes|));
            AreDigits(5, Cut(5, padded)) && Spell(5, Cut(5, padded)) == padded
    ensures |Encode(bytes)| == (8 * |bytes| + 4) / 5
  {
    var padded := Spell(8, bytes) + Zeros(PadLength(8 * |bytes|));
    SpellLength(8, bytes);
    PadIsUnique(|bytes|, (8 * |bytes| + 4) / 5, PadLength(8 * |bytes|));
    SpellCutWhole(5, padded, (8 * |bytes| + 4) / 5);
  }

  /** What is encoded decodes to itself, for every length. */
  lemma {:induction false} RoundTrip(bytes: seq<Byte>)
    ensures Decode(Encode(bytes)) == bytes
  {
    var fill := Zeros(PadLength(8 * |bytes|));
    EncodingSpells(bytes);
    FiveBitDigits(Cut(5, Spell(8, bytes) + fill));
    SanitizeKeeps(Encode(bytes));
    BytesAreDigits(bytes);
    CutSpell(8, bytes, fill);
  }

  lemma {:induction false} SanitizeConcat(s: string, t: string)
    ensures Sanitize(s + t) == Sanitize(s) + Sanitize(t)
  {
    hide Kept, InAlphabet;
    if |s| == 0 {
      assert s + t == t;
    } else {
      SanitizeConcat(s[1..], t);
      assert (s + t)[1..] == s[1..] + t;
    }
  }

  lemma {:induction false} SanitizeDrops(junk: string)
    requires forall c :: c in junk ==> Kept(c) == []
    ensures Sanitize(junk) == []
  {
    if |junk| > 0 {
      assert Kept(junk[0]) == [];
      SanitizeDrops(junk[1..]);
    }
  }

  lemma {:induction false} SanitizeOne(c: char)
    ensures Sanitize([c]) == Kept(c)
  {
    assert [c][1..] == [];
  }

  /** Lower-casing one character keeps what the sanitizer keeps, or adds to it. */
  lemma {:induction false} LowerKeepsIff(c: char)
    ensures |Sanitize(Lower(c))| >= |Kept(c)|
    ensures Sanitize(Lower(c)) == Kept(c) <==> !GainsLetters(c)
  {
    hide Sanitize;
    SanitizeOne(Lower(c)[0]);
    if c == '\U{0130}' {
      SanitizeConcat("i", "\U{0307}");
      SanitizeOne('\U{0307}');
      assert Lower(c) == "i" + "\U{0307}";
    } else {
      assert Lower(c) == [Lower(c)[0]];
    }
  }

  lemma {:induction false} ConcatSplits(a: string, x: string, b: string, y: string)
    requires |a| >= |b| && |x| >= |y|
    ensures |a + x| >= |b + y|
    ensures a + x == b + y <==> a == b && x == y
  {
    if a + x == b + y {
      assert |a + x| == |a| + |x| && |b + y| == |b| + |y|;
      assert a == (a + x)[..|a|] && b == (b + y)[..|b|];
      assert x == (a + x)[|a|..] && y == (b + y)[|b|..];
    }
  }

  /** Lower-casing a text leaves what is kept of it exactly when it has none of those three characters. */
  lemma {:induction false} SanitizeLowerIff(s: string)
    ensures |Sanitize(LowerCase(s))| >= |Sanitize(s)|
    ensures Sanitize(LowerCase(s)) == Sanitize(s) <==> forall c :: c in s ==> !GainsLetters(c)
  {
    if |s| > 0 {
      hide Kept, Lower, GainsLetters, InAlphabet;
      SanitizeLowerIff(s[1..]);
      LowerKeepsIff(s[0]);
      SanitizeConcat(Lower(s[0]), LowerCase(s[1..]));
      ConcatSplits(Sanitize(Lower(s[0])), Sanitize(LowerCase(s[1..])), Kept(s[0]), Sanitize(s[1..]));
      assert forall c :: c in s <==> c == s[0] || c in s[1..];
    }
  }

  lemma SanitizeIgnoresJunk(head: string, junk: string, tail: string)
    requires forall c :: c in junk ==> Kept(c) == []
    ensures Sanitize(head + junk + tail) == Sanitize(head + tail)
  {
    assert Sanitize(head + junk) == Sanitize(head) by {
      SanitizeConcat(head, junk);
      SanitizeDrops(junk);
    }
    SanitizeConcat(head + junk, tail);
    SanitizeConcat(head, tail);
  }

  /**
   * Padding or separators anywhere do not change what is decoded, and neither does lower-casing a text without the
   * three characters that gain letters by it.
   */
  lemma {:induction false} DecodeIgnoresFormatting(head: string, junk: string, tail: string)
    requires forall c :: c in junk ==> Kept(c) == []
    ensures Decode(head + junk + tail) == Decode(head + tail)
    ensures (forall c :: c in head + junk + tail ==> !GainsLetters(c)) ==>
              Decode(LowerCase(head + junk + tail)) == Decode(head + tail)
  {
    SanitizeIgnoresJunk(head, junk, tail);
    SanitizeLowerIff(head + junk + tail);
  }

  /** Re-encoding gives back the kept characters exactly when fewer than five bits were dropped and all were zero. */
  lemma {:induction false} ReEncode(text: string, bytes: seq<Byte>, rest: seq<bool>)
    requires bytes == Decode(text)
    requires Spell(5, Indices(Sanitize(text))) == Spell(8, bytes) + rest
    ensures Encode(bytes) == Sanitize(text) <==> |rest| < 5 && rest == Zeros(|rest|)
  {
    var s := Sanitize(text);
    var d := Indices(s);
    var fill := Zeros(PadLength(8 * |bytes|));
    var padded := Spell(8, bytes) + fill;
    AlphabetDigits(s);
    EncodingSpells(bytes);
    FiveBitDigits(Cut(5, padded));
    SpellLength(5, d);
    SpellLength(8, bytes);
    if Encode(bytes) == s {
      assert Spell(5, d) == padded;
      assert rest == padded[8 * |bytes|..] == fill;
    }
    if |rest| < 5 && rest == Zeros(|rest|) {
      PadIsUnique(|bytes|, |d|, |rest|);
      CutSpell(5, d, []);
      assert Spell(5, d) + [] == padded;
    }
  }

  /** Whatever digits spell the zero-filled input are the digits of its encoding. */
  lemma EncodingIsUnique(bytes: seq<Byte>, digits: seq<int>, k: nat)
    requires AreDigits(5, digits) && k < 5
    requires Spell(5, digits) == Spell(8, bytes) + Zeros(k)
    ensures Text(digits) == Encode(bytes)
  {
    SpellLength(5, digits);
    SpellLength(8, bytes);
    PadIsUnique(|bytes|, |digits|, k);
    CutSpell(5, digits, []);
    assert Spell(5, digits) + [] == Spell(5, digits);
  }

  lemma TextAppend(digits: seq<int>, k: int)
    requires AreDigits(5, digits + [k])
    ensures 0 <= k < |BASE32_ALPHABET| && Text(digits + [k]) == Text(digits) + [BASE32_ALPHABET[k]]
  {
    assert Pow2(5) == 32;
    assert (digits + [k])[|digits|] == k;
  }

  // ---------------------------------------------------------------------------
  // The accumulator loops
  // ---------------------------------------------------------------------------

  /** The inner loop: writes characters while five or more bits are pending. */
  method WriteGroups(value: int, pending: nat, written: string, ghost digits: seq<int>)
    returns (bits: nat, result: string, ghost out: seq<int>)
    requires pending <= 12 && AreDigits(5, digits) && written == Text(digits)
    ensures bits < 5 && AreDigits(5, out) && result == Text(out)
    ensures Spell(5, out) + Bits(value, bits) == Spell(5, digits) + Bits(value, pending)
  {
    bits, result, out := pending, written, digits;
    while bits >= 5
      invariant bits <= 12 && AreDigits(5, out) && result == Text(out)
      invariant Spell(5, out) + Bits(value, bits) == Spell(5, digits) + Bits(value, pending)
    {
      bits := bits - 5;
      var k := And(ShiftRight(value, bits), 0x1f);
      Emit(5, out, value, bits, 0x1f, k);
      TextAppend(out, k);
      out := out + [k];
      result := result + [BASE32_ALPHABET[k]];
    }
  }

  /** What is left after the loops: either nothing, or one zero-filled character. */
  lemma {:induction false} LastCharacter(bytes: seq<Byte>, digits: seq<int>, value: int, bits: nat)
    requires AreDigits(5, digits) && bits < 5
    requires Spell(5, digits) + Bits(value, bits) == Spell(8, bytes)
    ensures bits == 0 ==> Text(digits) == Encode(bytes)
    ensures bits > 0 ==>
      var k := And(ShiftLeft(value, 5 - bits), 0x1f);
      0 <= k < |BASE32_ALPHABET| && Text(digits) + [BASE32_ALPHABET[k]] == Encode(bytes)
  {
    if bits > 0 {
      var k := And(ShiftLeft(value, 5 - bits), 0x1f);
      Flush(5, digits, value, bits, Spell(8, bytes), 0x1f, k);
      TextAppend(digits, k);
      EncodingIsUnique(bytes, digits + [k], 5 - bits);
    } else {
      assert Spell(5, digits) == Spell(8, bytes) + Zeros(0);
      EncodingIsUnique(bytes, digits, 0);
    }
  }

  method BytesToBase32(bytes: seq<Byte>) returns (result: string)
    ensures result == Encode(bytes)
  {
    hide Or, And, ShiftLeft, Cut;
    result := "";
    var bits: nat, value := 0, 0;
    ghost var digits: seq<int> := [];
    BytesAreDigits(bytes);
    for i := 0 to |bytes|
      invariant bits < 5 && AreDigits(5, digits) && result == Text(digits)
      invariant Spell(5, digits) + Bits(value, bits) == Spell(8, bytes[..i])
    {
      Feed(5, digits, value, bits, bytes[i], 8);
      SpellTake(8, bytes, i);
      value := Or(ShiftLeft(value, 8), bytes[i]);
      bits, result, digits := WriteGroups(value, bits + 8, result, digits);
    }
    assert bytes[..|bytes|] == bytes;
    LastCharacter(bytes, digits, value, bits);
    if bits > 0 {
      result := result + [BASE32_ALPHABET[And(ShiftLeft(value, 5 - bits), 0x1f)]];
    }
  }

  lemma NothingRead(s: string)
    ensures Spell(8, []) + Bits(0, 0) == Spell(5, Indices(s)[..0])
    ensures forall i :: 0 <= i < |s| ==> Indices(s)[i] == DigitOf(s[i])
  {
  }

  method Base32ToBytes(base32: string) returns (result: seq<int>)
    ensures result == Decode(base32) && AreDigits(8, result)
  {
    hide Or, And, ShiftLeft, ShiftRight, Cut, Sanitize, IndexOf, Spell, Bits, Indices;
    var sanitized := Sanitize(base32);
    result := [];
    var bits, value := 0, 0;
    AlphabetDigits(sanitized);
    ghost var codes := Indices(sanitized);
    NothingRead(sanitized);
    for i := 0 to |sanitized|
      invariant 0 <= bits < 8
      invariant AreDigits(8, result)
      invariant Spell(8, result) + Bits(value, bits) == Spell(5, codes[..i])
    {
      var k := IndexOf(BASE32_ALPHABET, sanitized[i]);
      Feed(8, result, value, bits, k, 5);
      SpellTake(5, codes, i);
      value := Or(ShiftLeft(value, 5), k);
      bits := bits + 5;
      if bits >= 8 {
        bits := bits - 8;
        var byte := And(ShiftRight(value, bits), 0xff);
        Emit(8, result, value, bits, 0xff, byte);
        result := result + [byte];
      }
    }
    assert codes[..|codes|] == codes;
    CutSpell(8, result, Bits(value, bits));
  }
}
