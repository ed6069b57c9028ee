/** The comparison of a decimal text with the largest safe integer, digit by digit and without overflow. */
module SafeMagnitude {
  import opened Outcomes
  import opened Decimals
  import opened JsonNumbers

  const SAFE_DIGITS: seq<byte> := [0x39, 0x30, 0x30, 0x37, 0x31, 0x39, 0x39, 0x32, 0x35, 0x34, 0x37, 0x34, 0x30, 0x39,
                                   0x39, 0x31]

  /** Exponents beyond this are clamped to it. */
  const EXPONENT_LIMIT := MAX_ENCODED_BYTES + 32

  // ---------------------------------------------------------------------------
  // The value of a number
  // ---------------------------------------------------------------------------

  function FractionDigits(n: Number): seq<byte> {
    if n.fraction.Some? then n.fraction.value else []
  }

  function Significand(n: Number): nat
    requires WellFormed(n)
  {
    Nat(n.integer + FractionDigits(n))
  }

  function ExponentValue(n: Number): int
    requires WellFormed(n)
  {
    if n.exponent.None? then 0
    else if n.exponent.value.sign == Some(MINUS) then -(Nat(n.exponent.value.digits) as int)
    else Nat(n.exponent.value.digits)
  }

  /** The absolute value the text denotes, exactly. */
  ghost function AbsoluteValue(n: Number): real
    requires WellFormed(n)
  {
    Scaled(Significand(n), ExponentValue(n) - |FractionDigits(n)|)
  }

  ghost function Scaled(m: nat, x: int): real {
    if x >= 0 then m as real * Pow10(x) as real else m as real / Pow10(-x) as real
  }

  /** m * 10^x > 2^53-1, over the integers. */
  ghost predicate Exceeds(m: nat, x: int) {
    if x >= 0 then m * Pow10(x) > MAX_SAFE else m > MAX_SAFE * Pow10(-x)
  }

  lemma RealScale(q: real, s: real, p: real)
    requires p > 0.0
    ensures q > s <==> q * p > s * p
  {
  }

  lemma RealProduct(a: int, b: int)
    ensures a as real * b as real == (a * b) as real
  {
  }

  lemma ExceedsIsComparison(m: nat, x: int)
    ensures Exceeds(m, x) <==> Scaled(m, x) > MAX_SAFE as real
  {
    hide Pow10;
    if x >= 0 {
      RealProduct(m, Pow10(x));
    } else {
      var p := Pow10(-x) as real;
      var q := m as real / p;
      assert q * p == m as real;
      RealProduct(MAX_SAFE, Pow10(-x));
      RealScale(q, MAX_SAFE as real, p);
    }
  }

  // ---------------------------------------------------------------------------
  // Magnitude by number of digits
  // ---------------------------------------------------------------------------

  lemma SafeDigitsValue()
    ensures Digits(SAFE_DIGITS) && Nat(SAFE_DIGITS) == MAX_SAFE
    ensures Pow10(15) < MAX_SAFE < Pow10(16)
  {
    SmallPowers();
    hide Nat, Pow10;
    var a, b, c, d := [0x39, 0x30, 0x30, 0x37], [0x31, 0x39, 0x39, 0x32], [0x35, 0x34, 0x37, 0x34],
        [0x30, 0x39, 0x39, 0x31];
    FourDigits(a);
    FourDigits(b);
    FourDigits(c);
    FourDigits(d);
    NatConcat(a, b);
    NatConcat(a + b, c);
    NatConcat(a + b + c, d);
    assert SAFE_DIGITS == a + b + c + d;
  }

  lemma SmallPowers()
    ensures Pow10(4) == 10000 && Pow10(15) == 1000000000000000 && Pow10(16) == 10000000000000000
  {
    assert Pow10(4) == 10000 && Pow10(3) == 1000;
    hide Pow10;
    PowSum(4, 4);
    PowSum(8, 4);
    PowSum(12, 4);
    PowSum(12, 3);
  }

  lemma FourDigits(s: seq<byte>)
    requires Digits(s) && |s| == 4
    ensures Nat(s) == 1000 * (s[0] - ZERO) + 100 * (s[1] - ZERO) + 10 * (s[2] - ZERO) + (s[3] - ZERO)
  {
    hide Nat;
    NatOne(s[0]);
    NatNext([s[0]], s[1]);
    NatNext([s[0]] + [s[1]], s[2]);
    NatNext([s[0]] + [s[1]] + [s[2]], s[3]);
    assert s == [s[0]] + [s[1]] + [s[2]] + [s[3]];
  }

  /** More than sixteen digits before the point. */
  lemma ManyDigits(m: nat, n: nat, x: int)
    requires n > 0 && m >= Pow10(n - 1) && n + x > 16
    ensures Exceeds(m, x)
  {
    hide Pow10;
    SafeDigitsValue();
    if x >= 0 {
      Scale(Pow10(n - 1), m, Pow10(x));
      PowSum(n - 1, x);
      PowMonotone(16, n - 1 + x);
    } else {
      PowMonotone(16 - x, n - 1);
      PowSum(16, -x);
      StrictScale(MAX_SAFE, Pow10(16), Pow10(-x));
    }
  }

  /** Fewer than sixteen digits before the point. */
  lemma FewDigits(m: nat, n: nat, x: int)
    requires m < Pow10(n) && n + x < 16
    ensures !Exceeds(m, x)
  {
    hide Pow10;
    SafeDigitsValue();
    if x >= 0 {
      Scale(m, Pow10(n), Pow10(x));
      PowSum(n, x);
      PowMonotone(n + x, 15);
    } else {
      PowMonotone(n, 15 - x);
      PowSum(15, -x);
      Scale(Pow10(15), MAX_SAFE, Pow10(-x));
    }
  }

  lemma StrictScale(a: int, b: int, w: nat)
    requires a < b && w > 0
    ensures a * w < b * w
  {
  }

  /** Exactly sixteen digits before the point, all of them given: zeros are added. */
  lemma SixteenPadded(digits: seq<byte>)
    requires Digits(digits) && |digits| <= 16
    ensures Exceeds(Nat(digits), 16 - |digits|) <==> Nat(digits + Zeros(16 - |digits|)) > Nat(SAFE_DIGITS)
  {
    hide Pow10, Nat, Digits, Zeros;
    SafeDigitsValue();
    NatPadded(digits, 16 - |digits|);
  }

  /** Exactly sixteen digits before the point, and more behind it. */
  lemma SixteenAndMore(digits: seq<byte>)
    requires Digits(digits) && |digits| > 16
    ensures Exceeds(Nat(digits), 16 - |digits|) <==>
              Nat(digits[..16]) > Nat(SAFE_DIGITS)
              || (Nat(digits[..16]) == Nat(SAFE_DIGITS) && Nat(digits[16..]) > 0)
  {
    hide Pow10, Nat;
    SafeDigitsValue();
    var w := Pow10(|digits| - 16);
    assert digits == digits[..16] + digits[16..];
    NatConcat(digits[..16], digits[16..]);
    NatBound(digits[16..]);
    if Nat(digits[..16]) > MAX_SAFE {
      Scale(MAX_SAFE + 1, Nat(digits[..16]), w);
      assert (MAX_SAFE + 1) * w == MAX_SAFE * w + w;
    } else if Nat(digits[..16]) < MAX_SAFE {
      Scale(Nat(digits[..16]) + 1, MAX_SAFE, w);
      assert (Nat(digits[..16]) + 1) * w == Nat(digits[..16]) * w + w;
    }
  }

  // ---------------------------------------------------------------------------
  // The decision
  // ---------------------------------------------------------------------------

  /** Sixteen significant digits against the digits of 2^53-1; missing ones are zero. */
  method CompareSignificant(significant: seq<byte>) returns (exceeds: bool)
    ensures Digits(significant) && significant != [] ==> (exceeds <==> Exceeds(Nat(significant), 16 - |significant|))
  {
    hide Pow10, Nat, Exceeds;
    ghost var padded := if |significant| <= 16 then significant + Zeros(16 - |significant|) else significant[..16];
    if Digits(significant) {
      SafeDigitsValue();
      if |significant| <= 16 { SixteenPadded(significant); } else { SixteenAndMore(significant); }
    }
    for index := 0 to 16
      invariant padded[..index] == SAFE_DIGITS[..index]
    {
      var digit := ZERO;
      if index < |significant| { digit := significant[index]; }
      assert digit == padded[index];
      if digit != SAFE_DIGITS[index] {
        if Digits(significant) {
          if digit > SAFE_DIGITS[index] {
            NatCompare(padded, SAFE_DIGITS, index);
          } else {
            NatCompare(SAFE_DIGITS, padded, index);
          }
        }
        return digit > SAFE_DIGITS[index];
      }
      assert padded[..index + 1] == padded[..index] + [digit];
    }
    assert padded[..16] == padded && SAFE_DIGITS[..16] == SAFE_DIGITS;
    if Digits(significant) && |significant| > 16 { NatZero(significant[16..]); }
    var index := 16;
    while index < |significant|
      invariant 16 <= index && (|significant| >= 16 ==> index <= |significant|)
      invariant forall i :: 16 <= i < index && i < |significant| ==> significant[i] == ZERO
    {
      if significant[index] != ZERO {
        assert |significant| > 16 ==> significant[16..][index - 16] != ZERO;
        return true;
      }
      index := index + 1;
    }
    return false;
  }

  /** All the digits of a mantissa, how many of them are before the point, and the exponent decide. */
  method DecideMagnitude(digits: seq<byte>, integerDigits: int, exponent: int) returns (exceeds: bool)
    ensures Digits(digits) ==> (exceeds <==> Exceeds(Nat(digits), exponent - (|digits| - integerDigits)))
  {
    hide Pow10, Nat, Exceeds;
    var leadingZeros := 0;
    while leadingZeros < |digits| && digits[leadingZeros] == ZERO
      invariant 0 <= leadingZeros <= |digits|
      invariant forall i :: 0 <= i < leadingZeros ==> digits[i] == ZERO
    {
      leadingZeros := leadingZeros + 1;
    }
    ghost var x := exponent - (|digits| - integerDigits);
    if leadingZeros == |digits| {
      if Digits(digits) { NatZero(digits); NothingExceeds(x); }
      return false;
    }
    var effective := integerDigits + exponent - leadingZeros;
    var significant := digits[leadingZeros..];
    assert effective == |significant| + x;
    if Digits(digits) {
      NatSkipsZeros(digits, leadingZeros);
      NatLowerBound(significant);
      NatBound(significant);
    }
    if effective != |SAFE_DIGITS| {
      if Digits(digits) {
        if effective > 16 {
          ManyDigits(Nat(digits), |significant|, x);
        } else {
          FewDigits(Nat(digits), |significant|, x);
        }
      }
      return effective > |SAFE_DIGITS|;
    }
    exceeds := CompareSignificant(significant);
  }

  lemma NothingExceeds(x: int)
    ensures !Exceeds(0, x)
  {
    if x < 0 { assert MAX_SAFE * Pow10(-x) >= 0; }
  }

  // ---------------------------------------------------------------------------
  // Clamped exponents
  // ---------------------------------------------------------------------------

  function Clamped(e: int): int {
    if e > EXPONENT_LIMIT then EXPONENT_LIMIT else if e < -EXPONENT_LIMIT then -EXPONENT_LIMIT else e
  }

  /** The value spelled by optionally signed digits, within the bounds kept for exponents. */
  ghost predicate ClampedTo(text: seq<byte>, e: int) {
    var signed := text != [] && text[0] in {PLUS, MINUS};
    var digits := if signed then text[1..] else text;
    Digits(digits) ==> e == Clamped(if signed && text[0] == MINUS then -(Nat(digits) as int) else Nat(digits))
  }

  /** The exponent after the letter, computed without ever exceeding the limit. */
  method BoundedDecimalExponent(text: seq<byte>) returns (e: int)
    ensures ClampedTo(text, e)
  {
    var sign, digits := 1, text;
    if text != [] && text[0] in {PLUS, MINUS} {
      if text[0] == MINUS { sign := -1; }
      digits := text[1..];
    }
    hide Nat, Digits, ClampedTo;
    var value := 0;
    EmptyNat();
    assert digits[..0] == [];
    for index := 0 to |digits|
      invariant 0 <= value
      invariant Digits(digits) ==> Digits(digits[..index]) && value == Nat(digits[..index]) <= EXPONENT_LIMIT
    {
      var digit := (digits[index] - ZERO) % 256;
      if Digits(digits) { PrefixNext(digits, index); }
      OverLimit(value, digit);
      if value > (EXPONENT_LIMIT - digit) / 10 {
        SignedValue(text, sign, digits, EXPONENT_LIMIT);
        return sign * EXPONENT_LIMIT;
      }
      value := value * 10 + digit;
    }
    assert digits[..|digits|] == digits;
    SignedValue(text, sign, digits, value);
    e := sign * value;
  }

  lemma SignedValue(text: seq<byte>, sign: int, digits: seq<byte>, value: int)
    requires if text != [] && text[0] in {PLUS, MINUS}
             then digits == text[1..] && sign == (if text[0] == MINUS then -1 else 1)
             else digits == text && sign == 1
    requires Digits(digits) ==> value == if Nat(digits) > EXPONENT_LIMIT then EXPONENT_LIMIT else Nat(digits)
    ensures ClampedTo(text, sign * value)
  {
    hide Nat, Digits;
  }

  lemma EmptyNat()
    ensures Digits([]) && Nat([]) == 0
  {
  }

  lemma OverLimit(value: int, digit: int)
    ensures value > (EXPONENT_LIMIT - digit) / 10 <==> value * 10 + digit > EXPONENT_LIMIT
  {
  }

  /** The value of one more digit of a text, which is still no more than the whole. */
  lemma PrefixNext(digits: seq<byte>, index: nat)
    requires Digits(digits) && index < |digits|
    ensures Digit(digits[index]) && Digits(digits[..index]) && Digits(digits[..index + 1])
    ensures Nat(digits[..index + 1]) == 10 * Nat(digits[..index]) + (digits[index] - ZERO) <= Nat(digits)
  {
    hide Nat;
    assert digits[..index + 1] == digits[..index] + [digits[index]];
    NatNext(digits[..index], digits[index]);
    NatPrefix(digits, index + 1);
  }

  lemma {:induction false} NatPrefix(s: seq<byte>, n: nat)
    requires Digits(s) && n <= |s|
    ensures Nat(s[..n]) <= Nat(s)
    decreases |s|
  {
    if n == |s| {
      assert s[..n] == s;
    } else {
      NatPrefix(s[..|s| - 1], n);
      assert s[..|s| - 1][..n] == s[..n];
    }
  }

  /** Clamping the exponent never changes the answer for texts within the size limit. */
  lemma ClampIsHarmless(digits: seq<byte>, fraction: nat, e: int)
    requires Digits(digits) && fraction <= |digits| <= MAX_ENCODED_BYTES
    ensures Exceeds(Nat(digits), Clamped(e) - fraction) <==> Exceeds(Nat(digits), e - fraction)
  {
    hide Pow10, Nat, Exceeds;
    if Nat(digits) == 0 {
      NothingExceeds(e - fraction);
      NothingExceeds(Clamped(e) - fraction);
    } else if e > EXPONENT_LIMIT {
      PowZero();
      ManyDigits(Nat(digits), 1, e - fraction);
      ManyDigits(Nat(digits), 1, EXPONENT_LIMIT - fraction);
    } else if e < -EXPONENT_LIMIT {
      NatBound(digits);
      FewDigits(Nat(digits), |digits|, e - fraction);
      FewDigits(Nat(digits), |digits|, -EXPONENT_LIMIT - fraction);
    }
  }

  lemma PowZero()
    ensures Pow10(0) == 1
  {
  }

  // ---------------------------------------------------------------------------
  // The whole text
  // ---------------------------------------------------------------------------

  /** The index of the first wanted byte, or -1. */
  ghost predicate FirstAt(s: seq<byte>, wanted: set<byte>, index: int) {
    && -1 <= index < |s|
    && (index >= 0 ==> s[index] in wanted && forall i :: 0 <= i < index ==> s[i] !in wanted)
    && (index < 0 ==> forall i :: 0 <= i < |s| ==> s[i] !in wanted)
  }

  method IndexAny(s: seq<byte>, wanted: set<byte>) returns (index: int)
    ensures FirstAt(s, wanted, index)
  {
    for i := 0 to |s|
      invariant forall j :: 0 <= j < i ==> s[j] !in wanted
    {
      if s[i] in wanted { return i; }
    }
    return -1;
  }

  function WithoutDots(s: seq<byte>): seq<byte> {
    if s == [] then [] else (if s[0] == DOT then [] else [s[0]]) + WithoutDots(s[1..])
  }

  lemma {:induction false} WithoutDotsKeepsDigits(s: seq<byte>, rest: seq<byte>)
    requires Digits(s)
    ensures WithoutDots(s + rest) == s + WithoutDots(rest)
  {
    if s == [] {
      assert s + rest == rest;
    } else {
      assert (s + rest)[1..] == s[1..] + rest;
      WithoutDotsKeepsDigits(s[1..], rest);
    }
  }

  lemma WithoutDotsDropsDot(s: seq<byte>)
    requires Digits(s)
    ensures WithoutDots([DOT] + s) == s
  {
    assert ([DOT] + s)[1..] == s && s + [] == s;
    WithoutDotsKeepsDigits(s, []);
  }

  lemma MantissaDigits(n: Number)
    requires WellFormed(n)
    ensures WithoutDots(n.integer + SpellFraction(n)) == n.integer + FractionDigits(n)
    ensures Digits(n.integer + FractionDigits(n))
  {
    hide Digit;
    WithoutDotsKeepsDigits(n.integer, SpellFraction(n));
    if n.fraction.Some? { hide WithoutDots; WithoutDotsDropsDot(n.fraction.value); }
  }

  /** Where the parts of a spelled number begin. */
  lemma MantissaShape(n: Number, i: nat)
    requires WellFormed(n)
    ensures var mantissa := n.integer + SpellFraction(n);
            i < |mantissa| ==>
              mantissa[i] !in {LOWER_E, UPPER_E} && (mantissa[i] == DOT <==> n.fraction.Some? && i == |n.integer|)
  {
    var mantissa := n.integer + SpellFraction(n);
    if i < |n.integer| {
      assert mantissa[i] == n.integer[i];
    } else if n.fraction.Some? && i > |n.integer| && i < |mantissa| {
      assert mantissa[i] == n.fraction.value[i - |n.integer| - 1];
    }
  }

  /** The scan for an exponent letter splits the number into mantissa and exponent. */
  lemma ExponentPart(number: seq<byte>, text: seq<byte>, n: Number, index: int)
    requires WellFormed(n) && Spell(n) == number
    requires text == if number[0] == MINUS then number[1..] else number
    requires FirstAt(text, {LOWER_E, UPPER_E}, index)
    ensures -1 <= index < |text|
    ensures (if index >= 0 then text[..index] else text) == n.integer + SpellFraction(n)
    ensures index >= 0 <==> n.exponent.Some?
    ensures index >= 0 ==> text[index + 1..] == SpellSign(n.exponent.value.sign) + n.exponent.value.digits
  {
    hide Spell, SpellFraction, SpellExponent, SpellSign, WellFormed, FirstAt;
    var head := n.integer + SpellFraction(n);
    WithoutSign(n);
    forall i | 0 <= i < |head| ensures head[i] !in {LOWER_E, UPPER_E} { MantissaShape(n, i); }
    ExponentTail(n);
    FoundAt(head, SpellExponent(n), {LOWER_E, UPPER_E}, index);
  }

  lemma ExponentTail(n: Number)
    requires WellFormed(n)
    ensures n.exponent.Some? <==> SpellExponent(n) != []
    ensures n.exponent.Some? ==>
              && SpellExponent(n)[0] in {LOWER_E, UPPER_E}
              && SpellExponent(n)[1..] == SpellSign(n.exponent.value.sign) + n.exponent.value.digits
  {
  }

  /** A scan stops at the first wanted byte. */
  lemma FoundAt(head: seq<byte>, tail: seq<byte>, wanted: set<byte>, index: int)
    requires forall i :: 0 <= i < |head| ==> head[i] !in wanted
    requires tail != [] ==> tail[0] in wanted
    requires FirstAt(head + tail, wanted, index)
    ensures -1 <= index < |head + tail| && (index >= 0 <==> tail != [])
    ensures if index >= 0 then (head + tail)[..index] == head && (head + tail)[index + 1..] == tail[1..]
            else head + tail == head
  {
    var text := head + tail;
    if tail != [] {
      assert text[|head|] == tail[0];
      assert index == |head|;
    }
  }

  lemma WithoutSign(n: Number)
    requires WellFormed(n)
    ensures var number := Spell(n);
            number != [] && (if number[0] == MINUS then number[1..] else number) == (n.integer + SpellFraction(n))
                + SpellExponent(n)
  {
    hide SpellFraction, SpellExponent;
    var rest := n.integer + (SpellFraction(n) + SpellExponent(n));
    assert Digit(n.integer[0]) && rest[0] == n.integer[0];
    assert n.negative ==> Spell(n)[1..] == rest;
    assert !n.negative ==> Spell(n) == rest;
    assert rest == (n.integer + SpellFraction(n)) + SpellExponent(n);
  }

  /** The scan for a point tells how many digits are before it. */
  lemma IntegerPart(n: Number, mantissa: seq<byte>, index: int)
    requires WellFormed(n) && mantissa == n.integer + SpellFraction(n)
    requires FirstAt(mantissa, {DOT}, index)
    ensures (if index >= 0 then index else |mantissa|) == |n.integer|
  {
    MantissaShape(n, |n.integer|);
    if index >= 0 { MantissaShape(n, index); }
  }

  lemma ExponentRead(n: Number, text: seq<byte>)
    requires WellFormed(n) && n.exponent.Some? && text == SpellSign(n.exponent.value.sign) + n.exponent.value.digits
    ensures var signed := text != [] && text[0] in {PLUS, MINUS};
            var digits := if signed then text[1..] else text;
            && digits == n.exponent.value.digits
            && ExponentValue(n) == if signed && text[0] == MINUS then -(Nat(digits) as int) else Nat(digits)
  {
    assert Digit(n.exponent.value.digits[0]);
  }

  /**
   * For every number of the grammar within the size limit, the answer is whether its exact absolute
   * value is greater than 2^53-1, whatever its exponent.
   */
  method NumberExceedsSafeMagnitude(number: seq<byte>) returns (exceeds: bool)
    ensures forall n :: WellFormed(n) && Spell(n) == number && |number| <= MAX_ENCODED_BYTES ==>
              (exceeds <==> AbsoluteValue(n) > MAX_SAFE as real)
  {
    hide AbsoluteValue, Spell, WellFormed, WithoutDots, Exceeds, Nat, Digits, FirstAt, ClampedTo;
    var text := number;
    if text == [] {
      forall n ensures !(WellFormed(n) && Spell(n) == number) { NeverEmpty(n); }
      return false;
    }
    if text[0] == MINUS { text := text[1..]; }
    var exponentIndex := IndexAny(text, {LOWER_E, UPPER_E});
    Within(text, {LOWER_E, UPPER_E}, exponentIndex);
    var mantissa, exponent := text, 0;
    if exponentIndex >= 0 {
      mantissa := text[..exponentIndex];
      exponent := BoundedDecimalExponent(text[exponentIndex + 1..]);
    }
    var dotIndex := IndexAny(mantissa, {DOT});
    var integerDigits := if dotIndex >= 0 then dotIndex else |mantissa|;
    var digits := WithoutDots(mantissa);
    exceeds := DecideMagnitude(digits, integerDigits, exponent);
    forall n | WellFormed(n) && Spell(n) == number && |number| <= MAX_ENCODED_BYTES
      ensures exceeds <==> AbsoluteValue(n) > MAX_SAFE as real
    {
      Answered(number, text, n, exponentIndex, mantissa, exponent, dotIndex, exceeds);
    }
  }

  lemma Within(text: seq<byte>, wanted: set<byte>, index: int)
    requires FirstAt(text, wanted, index)
    ensures -1 <= index < |text|
  {
  }

  /** The two scans find the digits and the exponent of the number. */
  lemma Scanned(number: seq<byte>, text: seq<byte>, n: Number, exponentIndex: int, mantissa: seq<byte>, exponent: int,
                dotIndex: int)
    requires WellFormed(n) && Spell(n) == number && 0 < |number| <= MAX_ENCODED_BYTES
    requires text == (if number[0] == MINUS then number[1..] else number) && -1 <= exponentIndex < |text|
    requires FirstAt(text, {LOWER_E, UPPER_E}, exponentIndex) && FirstAt(mantissa, {DOT}, dotIndex)
    requires if exponentIndex >= 0
             then mantissa == text[..exponentIndex] && ClampedTo(text[exponentIndex + 1..], exponent)
             else mantissa == text && exponent == 0
    ensures mantissa == n.integer + SpellFraction(n) && exponent == Clamped(ExponentValue(n))
    ensures (if dotIndex >= 0 then dotIndex else |mantissa|) == |n.integer|
    ensures |n.integer| + |FractionDigits(n)| <= MAX_ENCODED_BYTES
  {
    hide Spell, SpellFraction, SpellSign, WellFormed, FirstAt, ClampedTo, Clamped, ExponentValue, FractionDigits;
    ExponentPart(number, text, n, exponentIndex);
    IntegerPart(n, mantissa, dotIndex);
    ExponentIsClamped(n, exponentIndex, if exponentIndex >= 0 then text[exponentIndex + 1..] else [], exponent);
    SizeOf(n);
  }

  /** The answer for the digits of the mantissa is the answer for the number. */
  lemma Answered(number: seq<byte>, text: seq<byte>, n: Number, exponentIndex: int, mantissa: seq<byte>, exponent: int,
                 dotIndex: int, exceeds: bool)
    requires WellFormed(n) && Spell(n) == number && 0 < |number| <= MAX_ENCODED_BYTES
    requires text == (if number[0] == MINUS then number[1..] else number) && -1 <= exponentIndex < |text|
    requires FirstAt(text, {LOWER_E, UPPER_E}, exponentIndex) && FirstAt(mantissa, {DOT}, dotIndex)
    requires if exponentIndex >= 0
             then mantissa == text[..exponentIndex] && ClampedTo(text[exponentIndex + 1..], exponent)
             else mantissa == text && exponent == 0
    requires var digits := WithoutDots(mantissa);
             var integerDigits := if dotIndex >= 0 then dotIndex else |mantissa|;
             Digits(digits) ==> (exceeds <==> Exceeds(Nat(digits), exponent - (|digits| - integerDigits)))
    ensures exceeds <==> AbsoluteValue(n) > MAX_SAFE as real
  {
    hide AbsoluteValue, Spell, SpellFraction, SpellSign, WellFormed, WithoutDots, Exceeds, Nat, Digits, FirstAt,
         ClampedTo, Clamped, ExponentValue, FractionDigits, Significand, Scaled;
    Scanned(number, text, n, exponentIndex, mantissa, exponent, dotIndex);
    Decided(n, WithoutDots(mantissa), exponent);
  }

  /** What was read behind the exponent letter, or nothing, is the clamped exponent of the number. */
  lemma ExponentIsClamped(n: Number, index: int, text: seq<byte>, exponent: int)
    requires WellFormed(n) && (index >= 0 <==> n.exponent.Some?) && (index < 0 ==> exponent == 0)
    requires index >= 0 ==> text == SpellSign(n.exponent.value.sign) + n.exponent.value.digits
    requires index >= 0 ==> ClampedTo(text, exponent)
    ensures exponent == Clamped(ExponentValue(n))
  {
    hide Spell, WellFormed, Nat, SpellSign;
    SizeOf(n);
    if n.exponent.Some? {
      ExponentDigits(n);
      ExponentRead(n, text);
    }
  }

  lemma NeverEmpty(n: Number)
    ensures WellFormed(n) ==> Spell(n) != []
  {
  }

  lemma ExponentDigits(n: Number)
    requires WellFormed(n) && n.exponent.Some?
    ensures Digits(n.exponent.value.digits)
  {
  }

  lemma SizeOf(n: Number)
    requires WellFormed(n)
    ensures |n.integer| + |FractionDigits(n)| <= |Spell(n)|
    ensures n.exponent.None? ==> ExponentValue(n) == 0
  {
  }

  lemma Decided(n: Number, digits: seq<byte>, exponent: int)
    requires WellFormed(n) && digits == WithoutDots(n.integer + SpellFraction(n))
             && exponent == Clamped(ExponentValue(n))
    requires |n.integer| + |FractionDigits(n)| <= MAX_ENCODED_BYTES
    ensures Digits(digits)
    ensures Exceeds(Nat(digits), exponent - (|digits| - |n.integer|)) <==> AbsoluteValue(n) > MAX_SAFE as real
  {
    hide Exceeds, Nat, Digits, WithoutDots, Scaled;
    MantissaDigits(n);
    ClampIsHarmless(digits, |FractionDigits(n)|, ExponentValue(n));
    ExceedsIsComparison(Significand(n), ExponentValue(n) - |FractionDigits(n)|);
  }
}
