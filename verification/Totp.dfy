/** Time-based one-time passwords: dynamic truncation, decimal rendering and the acceptance window. */
module Totp {
  import opened Int32
  import opened Base32
  import opened Results

  const DIGEST_LENGTH := 20
  const TOTP_PERIOD_MS := 30_000
  const MODULUS := 1_000_000
  const UINT64_LIMIT := 0x1_0000_0000_0000_0000

  /** Milliseconds since the epoch, within the range of ECMAScript dates. */
  type Instant = t: int | 0 <= t <= 8_640_000_000_000_000

  type Digest = d: seq<Byte> | |d| == DIGEST_LENGTH witness seq(DIGEST_LENGTH, i => 0)

  /** HMAC-SHA1 of a counter value under a secret; left uninterpreted. */
  type Hmac = (seq<int>, nat) -> Digest

  // ---------------------------------------------------------------------------
  // Dynamic truncation (section 5.3 of RFC 4226)
  // ---------------------------------------------------------------------------

  function Truncate(hmac: Digest): int {
    OffsetInBounds(hmac[DIGEST_LENGTH - 1]);
    var offset := And(hmac[DIGEST_LENGTH - 1], 0x0f);
    JoinBytes(And(hmac[offset], 0x7f), And(hmac[offset + 1], 0xff), And(hmac[offset + 2], 0xff), And(hmac[offset + 3], 0xff))
  }

  function JoinBytes(a: int, b: int, c: int, d: int): int {
    Or(Or(Or(ShiftLeft(a, 24), ShiftLeft(b, 16)), ShiftLeft(c, 8)), d)
  }

  lemma OffsetInBounds(last: Byte)
    ensures And(last, 0x0f) == last % 16
  {
    hide And;
    assert Pow2(4) == 16;
    AndIsMod(last, 4);
  }

  /** The big-endian word at the offset. */
  function WordAt(d: Digest, offset: int): (w: int)
    requires 0 <= offset <= DIGEST_LENGTH - 4
    ensures 0 <= w < 0x1_0000_0000
  {
    BigEndian(d[offset], d[offset + 1], d[offset + 2], d[offset + 3])
  }

  function BigEndian(a: int, b: int, c: int, d: int): int {
    a * 0x100_0000 + b * 0x1_0000 + c * 0x100 + d
  }

  lemma MaskOfTopByte(b: Byte)
    ensures And(b, 0x7f) == b % 128
  {
    hide And;
    assert Pow2(7) == 128;
    AndIsMod(b, 7);
  }

  lemma MaskOfByte(b: Byte)
    ensures And(b, 0xff) == b
  {
    hide And;
    assert Pow2(8) == 256;
    AndIsMod(b, 8);
  }

  lemma ShiftIsProduct(x: int, n: nat)
    requires 0 <= x && x * Pow2(n) < 0x8000_0000
    ensures ShiftLeft(x, n) == x * Pow2(n)
  {
  }

  lemma JoinIsBigEndian(a: int, b: int, c: int, d: int)
    requires 0 <= a < 128 && 0 <= b < 256 && 0 <= c < 256 && 0 <= d < 256
    ensures JoinBytes(a, b, c, d) == BigEndian(a, b, c, d)
  {
    assert Pow2(8) == 0x100;
    assert Pow2(16) == 0x1_0000;
    assert Pow2(24) == 0x100_0000;
    ShiftIsProduct(a, 24);
    ShiftIsProduct(b, 16);
    ShiftIsProduct(c, 8);
    var ab, abc := a * 0x100 + b, a * 0x1_0000 + b * 0x100 + c;
    assert Or(ShiftLeft(a, 24), ShiftLeft(b, 16)) == ab * 0x1_0000 by {
      OrIsSum(a, b * 0x1_0000, 24);
    }
    assert Or(ab * 0x1_0000, ShiftLeft(c, 8)) == abc * 0x100 by {
      OrIsSum(ab, c * 0x100, 16);
    }
    OrIsSum(abc, d, 8);
  }

  /** The bytes are read in bounds and form the big-endian word with its top bit cleared. */
  lemma TruncationIsWord(d: Digest)
    ensures 0 <= And(d[DIGEST_LENGTH - 1], 0x0f) <= DIGEST_LENGTH - 4
    ensures Truncate(d) == WordAt(d, And(d[DIGEST_LENGTH - 1], 0x0f)) % 0x8000_0000
  {
    hide And, JoinBytes;
    OffsetInBounds(d[DIGEST_LENGTH - 1]);
    var o := And(d[DIGEST_LENGTH - 1], 0x0f);
    MaskOfTopByte(d[o]);
    MaskOfByte(d[o + 1]);
    MaskOfByte(d[o + 2]);
    MaskOfByte(d[o + 3]);
    TopBitCleared(d[o], d[o + 1], d[o + 2], d[o + 3]);
  }

  lemma TopBitCleared(a: Byte, b: Byte, c: Byte, d: Byte)
    ensures JoinBytes(a % 128, b, c, d) == BigEndian(a, b, c, d) % 0x8000_0000
  {
    JoinIsBigEndian(a % 128, b, c, d);
    DivUnique(BigEndian(a, b, c, d), 0x8000_0000, a / 128, BigEndian(a % 128, b, c, d));
  }

  // ---------------------------------------------------------------------------
  // Decimal rendering
  // ---------------------------------------------------------------------------

  function DigitChar(n: nat): char
    requires n < 10
  {
    '0' + n as char
  }

  function ToDecimal(n: nat): string {
    if n < 10 then [DigitChar(n)] else ToDecimal(n / 10) + [DigitChar(n % 10)]
  }

  function PadStart(s: string, length: nat): string
    decreases length - |s|
  {
    if |s| >= length then s else PadStart(['0'] + s, length)
  }

  function ParseDecimal(s: string): int {
    if |s| == 0 then 0 else 10 * ParseDecimal(s[..|s| - 1]) + (s[|s| - 1] as int - '0' as int)
  }

  function Pow10(n: nat): nat {
    if n == 0 then 1 else 10 * Pow10(n - 1)
  }

  predicate AllDecimal(s: string) {
    forall c :: c in s ==> '0' <= c <= '9'
  }

  lemma {:induction false} ParseOfDecimal(n: nat, k: nat)
    requires k >= 1 && n < Pow10(k)
    ensures ParseDecimal(ToDecimal(n)) == n
    ensures 1 <= |ToDecimal(n)| <= k && AllDecimal(ToDecimal(n))
  {
    if n >= 10 {
      ParseOfDecimal(n / 10, k - 1);
      assert ToDecimal(n)[..|ToDecimal(n)| - 1] == ToDecimal(n / 10);
    }
  }

  lemma {:induction false} LeadingZero(s: string)
    ensures ParseDecimal(['0'] + s) == ParseDecimal(s)
  {
    if |s| > 0 {
      LeadingZero(s[..|s| - 1]);
      assert (['0'] + s)[..|s|] == ['0'] + s[..|s| - 1];
    }
  }

  lemma {:induction false} ParseOfPadded(s: string, length: nat)
    requires |s| <= length && AllDecimal(s)
    ensures ParseDecimal(PadStart(s, length)) == ParseDecimal(s)
    ensures |PadStart(s, length)| == length && AllDecimal(PadStart(s, length))
    decreases length - |s|
  {
    if |s| < length {
      LeadingZero(s);
      ParseOfPadded(['0'] + s, length);
    }
  }

  /** Rendering of a one-time password. */
  function Render(otp: nat): string {
    PadStart(ToDecimal(otp), 6)
  }

  /** Exactly six decimal digits, from which the number can be read back: rendering is injective. */
  lemma RenderIsFaithful(otp: nat)
    requires otp < MODULUS
    ensures |Render(otp)| == 6 && AllDecimal(Render(otp)) && ParseDecimal(Render(otp)) == otp
  {
    assert Pow10(6) == MODULUS;
    ParseOfDecimal(otp, 6);
    ParseOfPadded(ToDecimal(otp), 6);
  }

  // ---------------------------------------------------------------------------
  // Codes and the acceptance window (section 5.2 of RFC 6238)
  // ---------------------------------------------------------------------------

  function Counter(now: Instant): nat {
    now / TOTP_PERIOD_MS
  }

  /** The code of a time step, by the word definition of truncation. */
  function CodeAt(hmac: Hmac, secret: seq<int>, counter: nat): string {
    var d := hmac(secret, counter);
    Render(WordAt(d, d[DIGEST_LENGTH - 1] % 16) % 0x8000_0000 % MODULUS)
  }

  /** Exactly the tokens that verification lets through. */
  predicate Accepts(hmac: Hmac, token: string, secret: seq<int>, now: Instant) {
    Counter(now) >= 1 &&
    (token == CodeAt(hmac, secret, Counter(now) - 1) ||
     token == CodeAt(hmac, secret, Counter(now)) ||
     token == CodeAt(hmac, secret, Counter(now) + 1))
  }

  /** Writing the counter as an unsigned 64-bit integer throws when it is out of range. */
  method GenerateTotp(hmac: Hmac, secretBytes: seq<int>, counter: int) returns (code: Result<string>)
    ensures code.Throws? <==> counter < 0 || counter >= UINT64_LIMIT
    ensures code.Ok? ==> code.value == CodeAt(hmac, secretBytes, counter)
  {
    if counter < 0 || counter >= UINT64_LIMIT {
      return Throws;
    }
    var d := hmac(secretBytes, counter);
    var binary := Truncate(d);
    TruncationIsWord(d);
    OffsetInBounds(d[DIGEST_LENGTH - 1]);
    var otp := binary % MODULUS;
    return Ok(PadStart(ToDecimal(otp), 6));
  }

  /** The timing-safe comparison throws on a length mismatch. */
  function TimingSafeEqual(a: string, b: string): Result<bool> {
    if |a| != |b| then Throws else Ok(a == b)
  }

  /** The code of step k or of a neighbour. */
  predicate IsCodeNear(hmac: Hmac, token: string, secret: seq<int>, k: int)
    requires k >= 1
  {
    token == CodeAt(hmac, secret, k - 1) || token == CodeAt(hmac, secret, k) || token == CodeAt(hmac, secret, k + 1)
  }

  lemma {:induction false} StepOf(now: Instant)
    ensures forall k: int :: k >= 1 && 30_000 * k <= now < 30_000 * (k + 1) ==> k == Counter(now)
    ensures now < 30_000 <==> Counter(now) == 0
  {
  }

  lemma {:induction false} AcceptedHasSixDigits(hmac: Hmac, token: string, secret: seq<int>, now: Instant)
    requires Accepts(hmac, token, secret, now)
    ensures |token| == 6
  {
    CodeHasSixDigits(hmac, secret, Counter(now) - 1);
    CodeHasSixDigits(hmac, secret, Counter(now));
    CodeHasSixDigits(hmac, secret, Counter(now) + 1);
  }

  lemma {:induction false} CodeHasSixDigits(hmac: Hmac, secret: seq<int>, counter: nat)
    ensures |CodeAt(hmac, secret, counter)| == 6
  {
    var d := hmac(secret, counter);
    RenderIsFaithful(WordAt(d, d[DIGEST_LENGTH - 1] % 16) % 0x8000_0000 % MODULUS);
  }

  method CheckTotp(hmac: Hmac, token: string, base32Secret: string, now: Instant) returns (r: Result<bool>)
    ensures r == Ok(true) <==> Accepts(hmac, token, Decode(base32Secret), now)
    ensures forall k: int :: k >= 1 && 30_000 * k <= now < 30_000 * (k + 1) ==>
              (r == Ok(true) <==> IsCodeNear(hmac, token, Decode(base32Secret), k))
    ensures r.Throws? <==> now < 30_000 || |token| != 6
  {
    StepOf(now);
    hide CodeAt, Decode;
    var secretBytes := Base32ToBytes(base32Secret);
    var counter := now / TOTP_PERIOD_MS;
    if Accepts(hmac, token, secretBytes, now) {
      AcceptedHasSixDigits(hmac, token, secretBytes, now);
    }
    var w := -1;
    while w <= 1
      invariant -1 <= w <= 2
      invariant w >= 0 ==> counter >= 1 && |token| == 6
      invariant w >= 0 ==> token != CodeAt(hmac, secretBytes, counter - 1)
      invariant w >= 1 ==> token != CodeAt(hmac, secretBytes, counter)
      invariant w >= 2 ==> token != CodeAt(hmac, secretBytes, counter + 1)
    {
      var expected := GenerateTotp(hmac, secretBytes, counter + w);
      if expected.Throws? {
        return Throws;
      }
      CodeHasSixDigits(hmac, secretBytes, counter + w);
      var same := TimingSafeEqual(token, expected.value);
      if same.Throws? {
        return Throws;
      }
      if same.value {
        return Ok(true);
      }
      w := w + 1;
    }
    return Ok(false);
  }

  /** Decryption yields None when it throws; every exception reads as a failed verification. */
  method Verify(hmac: Hmac, token: string, decrypted: Option<string>, now: Instant) returns (ok: bool)
    ensures ok <==> decrypted.Some? && Accepts(hmac, token, Decode(decrypted.value), now)
    ensures forall k: int :: k >= 1 && 30_000 * k <= now < 30_000 * (k + 1) ==>
              (ok <==> decrypted.Some? && IsCodeNear(hmac, token, Decode(decrypted.value), k))
    ensures ok ==> |token| == 6 && now >= 30_000
  {
    StepOf(now);
    if decrypted.None? {
      return false;
    }
    hide CodeAt, Decode;
    var r := CheckTotp(hmac, token, decrypted.value, now);
    return r == Ok(true);
  }

  /**
   * A code computed from the raw secret at time t is accepted against the stored base32 secret at
   * every time within one period of t, exactly when the clock is past the first period: in the
   * first 30 seconds of the epoch the counter of the lower window edge is negative and throws.
   */
  lemma {:induction false} CodeStaysValid(hmac: Hmac, secret: seq<Byte>, t: Instant, now: Instant)
    requires -TOTP_PERIOD_MS <= now - t <= TOTP_PERIOD_MS
    ensures Accepts(hmac, CodeAt(hmac, secret, Counter(t)), Decode(Encode(secret)), now)
       <==> now >= TOTP_PERIOD_MS
  {
    RoundTrip(secret);
    assert Counter(now) - 1 <= Counter(t) <= Counter(now) + 1;
  }

  /**
   * The code of a step, field by field: the four digest bytes from the offset in the last byte's low half, the first
   * of them without its top bit, as a big-endian number modulo a million, written in six decimal digits.
   */
  lemma {:induction false} CodeIsTruncatedWord(hmac: Hmac, secret: seq<int>, k: nat)
    ensures var d := hmac(secret, k);
            var o := d[19] % 16;
            var b0: int, b1: int, b2: int, b3: int := d[o], d[o + 1], d[o + 2], d[o + 3];
            var code := CodeAt(hmac, secret, k);
            && |code| == 6 && (forall c :: c in code ==> '0' <= c <= '9')
            && ParseDecimal(code)
               == (b0 % 128 * 16_777_216 + b1 * 65_536 + b2 * 256 + b3) % 1_000_000
  {
    var d := hmac(secret, k);
    var o := d[19] % 16;
    var word := WordAt(d, o) % 0x8000_0000;
    DivUnique(BigEndian(d[o], d[o + 1], d[o + 2], d[o + 3]), 0x8000_0000, d[o] / 128,
              BigEndian(d[o] % 128, d[o + 1], d[o + 2], d[o + 3]));
    hide Render, ParseDecimal;
    RenderIsFaithful(word % MODULUS);
  }

  /** The digest of section 5.4 of RFC 4226 gives 872921. */
  lemma {:induction false} StandardExample(hmac: Hmac, secret: seq<int>, k: nat)
    requires hmac(secret, k) == [0x1f, 0x86, 0x98, 0x69, 0x0e, 0x02, 0xca, 0x16, 0x61, 0x85,
                                 0x50, 0xef, 0x7f, 0x19, 0xda, 0x8e, 0x94, 0x5b, 0x55, 0x5a]
    ensures ParseDecimal(CodeAt(hmac, secret, k)) == 872_921
  {
    hide CodeAt, ParseDecimal;
    CodeIsTruncatedWord(hmac, secret, k);
  }

  /** At least 60 seconds away from its time a code is refused, unless it happens to be the code of a step that is near. */
  lemma {:induction false} CodeExpires(hmac: Hmac, secret: seq<Byte>, t: Instant, now: Instant)
    requires now - t >= 60_000 || t - now >= 60_000
    requires forall k: nat :: now / 30_000 - 1 <= k <= now / 30_000 + 1 ==>
               CodeAt(hmac, secret, k) != CodeAt(hmac, secret, t / 30_000)
    ensures !Accepts(hmac, CodeAt(hmac, secret, t / 30_000), Decode(Encode(secret)), now)
  {
    RoundTrip(secret);
    hide CodeAt, Encode, Decode;
    assert Counter(now) == now / 30_000;
  }
}
