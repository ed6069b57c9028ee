/** JSON numbers: the grammar of section 6 of RFC 8259, and the exact test against 2^53-1. */
module JsonNumbers {
  import opened Outcomes
  import opened Decimals

  const MAX_ENCODED_BYTES := 512 * 1024
  const MAX_SAFE: nat := 9007199254740991

  // The bytes of the grammar
  const MINUS: byte := 0x2D
  const PLUS: byte := 0x2B
  const DOT: byte := 0x2E
  const LOWER_E: byte := 0x65
  const UPPER_E: byte := 0x45

  // ---------------------------------------------------------------------------
  // The grammar
  // ---------------------------------------------------------------------------

  datatype Exponent = Exponent(letter: byte, sign: Option<byte>, digits: seq<byte>)

  /** number = [ minus ] int [ frac ] [ exp ] */
  datatype Number = Number(negative: bool, integer: seq<byte>, fraction: Option<seq<byte>>, exponent: Option<Exponent>)

  predicate WellFormed(n: Number) {
    && n.integer != [] && Digits(n.integer) && (n.integer[0] == ZERO ==> |n.integer| == 1)
    && (n.fraction.Some? ==> n.fraction.value != [] && Digits(n.fraction.value))
    && (n.exponent.Some? ==>
          && n.exponent.value.letter in {LOWER_E, UPPER_E}
          && (n.exponent.value.sign.Some? ==> n.exponent.value.sign.value in {PLUS, MINUS})
          && n.exponent.value.digits != [] && Digits(n.exponent.value.digits))
  }

  function SpellSign(sign: Option<byte>): seq<byte> {
    if sign.Some? then [sign.value] else []
  }

  function SpellFraction(n: Number): seq<byte> {
    if n.fraction.Some? then [DOT] + n.fraction.value else []
  }

  function SpellExponent(n: Number): seq<byte> {
    if n.exponent.Some? then [n.exponent.value.letter] + (SpellSign(n.exponent.value.sign) + n.exponent.value.digits)
        else []
  }

  function Spell(n: Number): seq<byte> {
    (if n.negative then [MINUS] else []) + (n.integer + (SpellFraction(n) + SpellExponent(n)))
  }

  ghost predicate IsNumber(text: seq<byte>) {
    exists n :: WellFormed(n) && Spell(n) == text
  }

  // ---------------------------------------------------------------------------
  // Reading a number
  // ---------------------------------------------------------------------------

  function DigitRun(s: seq<byte>): (n: nat)
    ensures n <= |s| && Digits(s[..n]) && (n < |s| ==> !Digit(s[n]))
  {
    if s != [] && Digit(s[0]) then
      var n := 1 + DigitRun(s[1..]);
      assert forall i :: 1 <= i < n ==> s[i] == s[1..][i - 1];
      n
    else 0
  }

  /** A run of digits ends where the next byte is not one. */
  lemma {:induction false} RunOf(digits: seq<byte>, rest: seq<byte>)
    requires Digits(digits) && (rest != [] ==> !Digit(rest[0]))
    ensures DigitRun(digits + rest) == |digits|
  {
    if digits == [] {
      assert digits + rest == rest;
    } else {
      assert (digits + rest)[1..] == digits[1..] + rest;
      RunOf(digits[1..], rest);
    }
  }

  function LexExponent(s: seq<byte>): Option<(Option<Exponent>, seq<byte>)> {
    if s == [] || s[0] !in {LOWER_E, UPPER_E} then Some((None, s))
    else
      var sign := if |s| > 1 && s[1] in {PLUS, MINUS} then Some(s[1]) else None;
      var after := if sign.Some? then s[2..] else s[1..];
      var n := DigitRun(after);
      if n == 0 then None else Some((Some(Exponent(s[0], sign, after[..n])), after[n..]))
  }

  function LexFraction(s: seq<byte>): Option<(Option<seq<byte>>, seq<byte>)> {
    if s == [] || s[0] != DOT then Some((None, s))
    else
      var n := DigitRun(s[1..]);
      if n == 0 then None else Some((Some(s[1..][..n]), s[1..][n..]))
  }

  /** The number a text starts with, and what follows it; a point or an exponent letter must be followed by digits. */
  function Lex(text: seq<byte>): Option<(Number, seq<byte>)> {
    var negative := text != [] && text[0] == MINUS;
    var s := if negative then text[1..] else text;
    var run := DigitRun(s);
    if run == 0 then None
    else
      var n := if s[0] == ZERO then 1 else run;
      match LexFraction(s[n..])
      case None => None
      case Some((fraction, rest)) =>
        match LexExponent(rest)
        case None => None
        case Some((exponent, rest')) => Some((Number(negative, s[..n], fraction, exponent), rest'))
  }

  /** What may follow a number without becoming part of it. */
  predicate EndsNumber(suffix: seq<byte>) {
    suffix != [] ==> !Digit(suffix[0]) && suffix[0] !in {DOT, LOWER_E, UPPER_E}
  }

  lemma LexExponentSound(s: seq<byte>, n: Number, rest: seq<byte>)
    requires LexExponent(s) == Some((n.exponent, rest))
    ensures s == SpellExponent(n) + rest
    ensures n.exponent.Some? ==>
              && n.exponent.value.letter in {LOWER_E, UPPER_E}
              && (n.exponent.value.sign.Some? ==> n.exponent.value.sign.value in {PLUS, MINUS})
              && n.exponent.value.digits != [] && Digits(n.exponent.value.digits)
  {
    if n.exponent.Some? {
      var sign := SpellSign(n.exponent.value.sign);
      assert s[1..] == sign + (n.exponent.value.digits + rest);
      assert sign + (n.exponent.value.digits + rest) == (sign + n.exponent.value.digits) + rest;
    }
  }

  lemma LexExponentComplete(n: Number, rest: seq<byte>)
    requires WellFormed(n) && EndsNumber(rest)
    ensures LexExponent(SpellExponent(n) + rest) == Some((n.exponent, rest))
  {
    hide LexExponent, SpellSign, Digits;
    if n.exponent.Some? {
      var e := n.exponent.value;
      LexSpelledExponent(e.letter, e.sign, e.digits, rest);
      assert SpellExponent(n) + rest == [e.letter] + (SpellSign(e.sign) + (e.digits + rest));
    } else {
      NoExponent(rest);
      assert SpellExponent(n) + rest == rest;
    }
  }

  lemma NoExponent(s: seq<byte>)
    requires s != [] ==> s[0] !in {LOWER_E, UPPER_E}
    ensures LexExponent(s) == Some((None, s))
  {
    hide DigitRun;
  }

  lemma LexSpelledExponent(letter: byte, sign: Option<byte>, digits: seq<byte>, rest: seq<byte>)
    requires letter in {LOWER_E, UPPER_E} && (sign.Some? ==> sign.value in {PLUS, MINUS})
    requires digits != [] && Digits(digits) && EndsNumber(rest)
    ensures LexExponent([letter] + (SpellSign(sign) + (digits + rest)))
            == Some((Some(Exponent(letter, sign, digits)), rest))
  {
    var tail := digits + rest;
    RunOf(digits, rest);
    assert Digit(digits[0]) && tail[0] == digits[0];
    assert tail[..|digits|] == digits && tail[|digits|..] == rest;
    hide DigitRun, Digits;
    if sign.Some? {
      AfterSign(letter, sign.value, tail);
    } else {
      AfterLetter(letter, tail);
    }
  }

  lemma AfterSign(letter: byte, sign: byte, tail: seq<byte>)
    ensures var s := [letter] + ([sign] + tail); s[0] == letter && s[1] == sign && s[2..] == tail
  {
  }

  lemma AfterLetter(letter: byte, tail: seq<byte>)
    ensures var s := [letter] + ([] + tail); s[0] == letter && s[1..] == tail
  {
  }

  lemma LexFractionSound(s: seq<byte>, n: Number, rest: seq<byte>)
    requires LexFraction(s) == Some((n.fraction, rest))
    ensures s == SpellFraction(n) + rest
    ensures n.fraction.Some? ==> n.fraction.value != [] && Digits(n.fraction.value)
  {
  }

  lemma LexFractionComplete(n: Number, rest: seq<byte>)
    requires n.fraction.Some? ==> n.fraction.value != [] && Digits(n.fraction.value)
    requires rest != [] ==> !Digit(rest[0]) && rest[0] != DOT
    ensures LexFraction(SpellFraction(n) + rest) == Some((n.fraction, rest))
  {
    if n.fraction.Some? {
      var f := n.fraction.value;
      var tail := SpellFraction(n) + rest;
      assert tail[1..] == f + rest;
      RunOf(f, rest);
      assert tail[1..][..|f|] == f && tail[1..][|f|..] == rest;
    } else {
      assert SpellFraction(n) + rest == rest;
    }
  }

  /** A number is read as its integer digits, then its fraction, then its exponent. */
  lemma LexParts(text: seq<byte>)
    requires Lex(text).Some?
    ensures var (n, rest) := Lex(text).value;
            var s := if n.negative then text[1..] else text;
            && (n.negative ==> text != [] && text[0] == MINUS) && 0 < |n.integer| <= |s|
            && s == n.integer + s[|n.integer|..]
            && Digits(n.integer) && (n.integer[0] == ZERO ==> |n.integer| == 1)
            && LexFraction(s[|n.integer|..]).Some? && LexFraction(s[|n.integer|..]).value.0 == n.fraction
            && LexExponent(LexFraction(s[|n.integer|..]).value.1) == Some((n.exponent, rest))
  {
    hide LexFraction, LexExponent, DigitRun;
  }

  /** Whatever is read is a well-formed number with that spelling. */
  lemma LexSound(text: seq<byte>)
    requires Lex(text).Some?
    ensures WellFormed(Lex(text).value.0) && text == Spell(Lex(text).value.0) + Lex(text).value.1
  {
    hide Lex, LexFraction, LexExponent, SpellFraction, SpellExponent, Digits;
    LexParts(text);
    var (n, rest) := Lex(text).value;
    var s := if n.negative then text[1..] else text;
    var tail := s[|n.integer|..];
    var tail' := LexFraction(tail).value.1;
    LexFractionSound(tail, n, tail');
    LexExponentSound(tail', n, rest);
    assert text == (if n.negative then [MINUS] else []) + s;
    Reassociate(if n.negative then [MINUS] else [], n.integer, SpellFraction(n), SpellExponent(n), rest);
  }

  lemma Reassociate(a: seq<byte>, b: seq<byte>, c: seq<byte>, d: seq<byte>, e: seq<byte>)
    ensures (a + (b + (c + d))) + e == a + (b + (c + (d + e)))
  {
  }

  /** Every well-formed number is read back from its spelling, whatever admissible text follows. */
  lemma LexComplete(n: Number, suffix: seq<byte>)
    requires WellFormed(n) && EndsNumber(suffix)
    ensures Lex(Spell(n) + suffix) == Some((n, suffix))
  {
    hide LexFraction, LexExponent, SpellFraction, SpellExponent;
    var text := Spell(n) + suffix;
    var tail := SpellFraction(n) + (SpellExponent(n) + suffix);
    var s := n.integer + tail;
    Reassociate(if n.negative then [MINUS] else [], n.integer, SpellFraction(n), SpellExponent(n), suffix);
    assert text == (if n.negative then [MINUS] else []) + s;
    assert Digit(n.integer[0]) && s[0] == n.integer[0];
    assert if n.negative then text[1..] == s else text == s;
    TailStart(n, suffix);
    LexFractionComplete(n, SpellExponent(n) + suffix);
    LexExponentComplete(n, suffix);
    if n.integer[0] == ZERO {
      assert n.integer == [ZERO];
      assert s[1..] == tail && s[..1] == n.integer && DigitRun(s) >= 1;
    } else {
      RunOf(n.integer, tail);
      assert s[|n.integer|..] == tail && s[..|n.integer|] == n.integer;
    }
  }

  lemma TailStart(n: Number, suffix: seq<byte>)
    requires WellFormed(n) && EndsNumber(suffix)
    ensures var tail := SpellFraction(n) + (SpellExponent(n) + suffix); tail != [] ==> !Digit(tail[0])
    ensures var tail := SpellExponent(n) + suffix; tail != [] ==> !Digit(tail[0]) && tail[0] != DOT
  {
  }

  // ---------------------------------------------------------------------------
  // Validation
  // ---------------------------------------------------------------------------

  method SkipDigits(value: seq<byte>) returns (rest: seq<byte>)
    ensures rest == value[DigitRun(value)..]
  {
    rest := value;
    while |rest| > 0 && Digit(rest[0])
      invariant |rest| <= |value| && rest == value[|value| - |rest|..]
      invariant DigitRun(value) == |value| - |rest| + DigitRun(rest)
    {
      rest := rest[1..];
    }
  }

  /** Accepts exactly the numbers of RFC 8259. */
  method ValidJSONNumber(text: seq<byte>) returns (ok: bool)
    ensures ok <==> IsNumber(text)
  {
    LexDecides(text);
    var value := text;
    if value == [] { return false; }
    if value[0] == MINUS {
      value := value[1..];
      if value == [] { return false; }
    }
    if value[0] == ZERO {
      value := value[1..];
    } else if Digit(value[0]) {
      value := SkipDigits(value);
    } else {
      return false;
    }
    ok := ValidRest(value);
  }

  /** The optional fraction and exponent after the integer digits. */
  method ValidRest(text: seq<byte>) returns (ok: bool)
    ensures ok <==> && LexFraction(text).Some? && LexExponent(LexFraction(text).value.1).Some?
                    && LexExponent(LexFraction(text).value.1).value.1 == []
  {
    hide LexExponent;
    var value := text;
    if |value| >= 2 && value[0] == DOT && Digit(value[1]) {
      value := SkipDigits(value[1..]);
    }
    if value != [] && value[0] == DOT { NoExponent(value); }
    ok := ValidExponent(value);
  }

  /** The optional exponent, at the end of the text. */
  method ValidExponent(text: seq<byte>) returns (ok: bool)
    ensures ok <==> LexExponent(text).Some? && LexExponent(text).value.1 == []
  {
    var value := text;
    if |value| >= 2 && value[0] in {LOWER_E, UPPER_E} {
      value := value[1..];
      if value[0] in {PLUS, MINUS} {
        value := value[1..];
        if value == [] { return false; }
      }
      value := SkipDigits(value);
    }
    ok := value == [];
  }

  lemma LexDecides(text: seq<byte>)
    ensures IsNumber(text) <==> Lex(text).Some? && Lex(text).value.1 == []
  {
    hide Lex, Spell;
    if Lex(text).Some? && Lex(text).value.1 == [] { LexSound(text); }
    forall n | WellFormed(n) && Spell(n) == text ensures Lex(text).Some? && Lex(text).value.1 == [] {
      LexComplete(n, []);
      assert Spell(n) + [] == text;
    }
  }
}
