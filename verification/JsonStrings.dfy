/** The JSON encoding of a string as encoding/json writes it, and one-pass computations of its length. */
module JsonStrings {
  import opened Decimals
  import opened Utf8
  import JsonNumbers

  const MAX := JsonNumbers.MAX_ENCODED_BYTES

  const QUOTE: byte := 0x22
  const BACKSLASH: byte := 0x5C
  const LETTER_U: byte := 0x75

  function HexDigit(n: int): byte
    requires 0 <= n < 16
  {
    if n < 10 then 0x30 + n else 0x61 + (n - 10)
  }

  function UnicodeEscape(r: int): Text
    requires 0 <= r < 0x10000
  {
    [BACKSLASH, LETTER_U, HexDigit(r / 4096), HexDigit(r / 256 % 16), HexDigit(r / 16 % 16), HexDigit(r % 16)]
  }

  /** The letter of a two-byte escape, or 0 if the byte has none. */
  function ShortEscape(b: byte): byte {
    if b == QUOTE || b == BACKSLASH then b
    else if b == 0x08 then 0x62
    else if b == 0x0C then 0x66
    else if b == 0x0A then 0x6E
    else if b == 0x0D then 0x72
    else if b == 0x09 then 0x74
    else 0
  }

  predicate HtmlSensitive(b: byte) { b == 0x3C || b == 0x3E || b == 0x26 }

  predicate LineSeparator(r: int) { r == 0x2028 || r == 0x2029 }

  /** How the first rune of a text is written inside a JSON string. */
  function EscapeFirst(s: Text, html: bool): (piece: Text)
    requires s != []
    ensures piece != []
  {
    var b := s[0];
    if b < RUNE_SELF then
      if ShortEscape(b) != 0 then [BACKSLASH, ShortEscape(b)]
      else if b < 0x20 || (html && HtmlSensitive(b)) then UnicodeEscape(b)
      else [b]
    else
      var (r, size) := DecodeRune(s);
      if (r == RUNE_ERROR && size == 1) || LineSeparator(r) then UnicodeEscape(r) else s[..size]
  }

  function Escaped(s: Text, html: bool): Text {
    if s == [] then [] else EscapeFirst(s, html) + Escaped(s[DecodeRune(s).1..], html)
  }

  /** A whole JSON string, with its quotes. */
  function Encode(s: Text, html: bool): Text {
    [QUOTE] + Escaped(s, html) + [QUOTE]
  }

  /** Lengths over the limit are reported as one more than the limit. */
  function Capped(n: nat): nat {
    if n > MAX then MAX + 1 else n
  }

  // ---------------------------------------------------------------------------
  // The length of the encoding
  // ---------------------------------------------------------------------------

  /** How long what encoding writes for one rune is. */
  function EscapedSize(s: Text): nat
    requires s != []
  {
    if s[0] < RUNE_SELF then
      if ShortEscape(s[0]) != 0 then 2 else if s[0] < 0x20 || HtmlSensitive(s[0]) then 6 else 1
    else
      var (r, size) := DecodeRune(s);
      if (r == RUNE_ERROR && size == 1) || LineSeparator(r) then 6 else size
  }

  lemma EscapedStep(s: Text)
    requires s != []
    ensures |Escaped(s, true)| == EscapedSize(s) + |Escaped(s[DecodeRune(s).1..], true)|
  {
    hide DecodeRune;
  }

  lemma EncodedSize(s: Text)
    ensures |Encode(s, true)| == 2 + |Escaped(s, true)|
    ensures |Escaped([], true)| == 0
  {
  }

  method JsonStringEncodedLength(value: Text) returns (length: nat)
    ensures length == Capped(|Encode(value, true)|)
  {
    hide Encode, Escaped, EscapeFirst;
    EncodedSize(value);
    assert value[0..] == value;
    length := 2;
    var index := 0;
    while index < |value|
      invariant 0 <= index <= |value| && length <= MAX
      invariant length + |Escaped(value[index..], true)| == |Encode(value, true)|
    {
      ghost var suffix := value[index..];
      EscapedStep(suffix);
      var character := value[index];
      if character < RUNE_SELF {
        assert DecodeRune(suffix).1 == 1;
        index := index + 1;
        if character in {BACKSLASH, QUOTE, 0x08, 0x0C, 0x0A, 0x0D, 0x09} {
          length := length + 2;
        } else if character in {0x3C, 0x3E, 0x26} {
          length := length + 6;
        } else if character < 0x20 {
          length := length + 6;
        } else {
          length := length + 1;
        }
      } else {
        var (r, size) := DecodeRune(value[index..]);
        index := index + size;
        if (r == RUNE_ERROR && size == 1) || r == 0x2028 || r == 0x2029 {
          length := length + 6;
        } else {
          length := length + size;
        }
      }
      assert suffix[DecodeRune(suffix).1..] == value[index..];
      if length > MAX { return MAX + 1; }
    }
    assert value[index..] == [];
  }

  // ---------------------------------------------------------------------------
  // Encoding twice
  // ---------------------------------------------------------------------------

  lemma EscapeFirstLocal(a: Text, b: Text, html: bool)
    requires a != [] && RuneLength(a) > 0
    ensures EscapeFirst(a + b, html) == EscapeFirst(a, html)
  {
    hide RuneLength;
    RuneLengthLocal(a, b);
    assert (a + b)[0] == a[0];
    assert (a + b)[..DecodeRune(a).1] == a[..DecodeRune(a).1];
  }

  /** Encoding works rune by rune, so it distributes over texts that end on a rune boundary. */
  lemma {:induction false} EscapedConcat(a: Text, b: Text, html: bool)
    requires Valid(a)
    ensures Escaped(a + b, html) == Escaped(a, html) + Escaped(b, html)
  {
    if a == [] {
      assert a + b == b;
    } else {
      var n := DecodeRune(a).1;
      RuneLengthLocal(a, b);
      EscapeFirstLocal(a, b, html);
      SizeOfValid(a);
      hide RuneLength, DecodeRune, EscapeFirst;
      assert (a + b)[n..] == a[n..] + b;
      EscapedConcat(a[n..], b, html);
      assert EscapeFirst(a, html) + (Escaped(a[n..], html) + Escaped(b, html))
          == (EscapeFirst(a, html) + Escaped(a[n..], html)) + Escaped(b, html);
    }
  }

  lemma SizeOfValid(s: Text)
    requires s != [] && RuneLength(s) > 0
    ensures DecodeRune(s).1 == RuneLength(s)
  {
  }

  predicate Plain(b: byte) {
    0x20 <= b < 0x80 && b != QUOTE && b != BACKSLASH
  }

  lemma {:induction false} PlainUnchanged(s: Text)
    requires forall i :: 0 <= i < |s| ==> Plain(s[i])
    ensures Escaped(s, false) == s
  {
    if s != [] { PlainUnchanged(s[1..]); }
  }

  /** An escape sequence grows by the one byte that escapes its backslash. */
  lemma EscapeSequenceGrows(s: Text)
    requires |s| >= 2 && s[0] == BACKSLASH && forall i :: 1 <= i < |s| ==> Plain(s[i])
    ensures Valid(s) && |Escaped(s, false)| == |s| + 1
  {
    AsciiIsValid(s);
    assert s == [BACKSLASH] + s[1..];
    AsciiIsValid([BACKSLASH]);
    EscapedConcat([BACKSLASH], s[1..], false);
    PlainUnchanged(s[1..]);
    assert Escaped([BACKSLASH], false) == [BACKSLASH, BACKSLASH] + Escaped([], false);
  }

  lemma EscapedPair(a: byte, b: byte)
    requires a == BACKSLASH && (b == BACKSLASH || b == QUOTE)
    ensures Valid([a, b]) && |Escaped([a, b], false)| == 4
  {
    AsciiIsValid([a, b]);
    assert [a, b][1..] == [b] && [b][1..] == [];
    assert Escaped([a, b], false) == [BACKSLASH, a] + Escaped([b], false);
    assert Escaped([b], false) == [BACKSLASH, b] + Escaped([], false);
  }

  lemma EscapedRune(s: Text)
    requires s != [] && s[0] >= RUNE_SELF && RuneLength(s) > 0 && !LineSeparator(DecodeRune(s).0)
    ensures Valid(s[..RuneLength(s)]) && |Escaped(s[..RuneLength(s)], false)| == RuneLength(s)
  {
    var n := RuneLength(s);
    var piece := s[..n];
    FirstRune(s);
    RuneIsValid(piece);
    SizeOfValid(piece);
    hide RuneLength, DecodeRune;
    assert piece[..n] == piece && piece[n..] == [];
  }

  /** How long what encoding writes for one rune becomes when it is encoded again without HTML escapes. */
  function TwiceEscaped(s: Text): nat
    requires s != []
  {
    if s[0] < RUNE_SELF then
      if s[0] == QUOTE || s[0] == BACKSLASH then 4
      else if ShortEscape(s[0]) != 0 then 3
      else if s[0] < 0x20 || HtmlSensitive(s[0]) then 7
      else 1
    else
      var (r, size) := DecodeRune(s);
      if (r == RUNE_ERROR && size == 1) || LineSeparator(r) then 7 else size
  }

  lemma EscapedTwice(s: Text)
    requires s != []
    ensures Valid(EscapeFirst(s, true)) && |Escaped(EscapeFirst(s, true), false)| == TwiceEscaped(s)
  {
    var piece := EscapeFirst(s, true);
    if s[0] < RUNE_SELF {
      if s[0] == QUOTE || s[0] == BACKSLASH {
        EscapedPair(BACKSLASH, s[0]);
      } else if |piece| > 1 {
        EscapeSequenceGrows(piece);
      } else {
        AsciiIsValid(piece);
        PlainUnchanged(piece);
      }
    } else {
      var (r, size) := DecodeRune(s);
      if (r == RUNE_ERROR && size == 1) || LineSeparator(r) {
        EscapeSequenceGrows(piece);
      } else {
        EscapedRune(s);
      }
    }
  }

  lemma {:induction false} EscapedIsValid(s: Text)
    ensures Valid(Escaped(s, true))
  {
    if s != [] {
      EscapedTwice(s);
      var rest := s[DecodeRune(s).1..];
      EscapedIsValid(rest);
      hide EscapeFirst, DecodeRune;
      ValidConcat(EscapeFirst(s, true), Escaped(rest, true));
    }
  }

  /** The length of encoding twice, in terms of the first rune and the rest. */
  lemma EscapedTwiceStep(s: Text)
    requires s != []
    ensures |Escaped(Escaped(s, true), false)| == TwiceEscaped(s)
            + |Escaped(Escaped(s[DecodeRune(s).1..], true), false)|
  {
    EscapedTwice(s);
    hide EscapeFirst, DecodeRune, TwiceEscaped;
    EscapedConcat(EscapeFirst(s, true), Escaped(s[DecodeRune(s).1..], true), false);
  }

  lemma EncodedTwice(s: Text)
    ensures |Encode(Encode(s, true), false)| == 6 + |Escaped(Escaped(s, true), false)|
  {
    var inner := Escaped(s, true);
    EscapedIsValid(s);
    AsciiIsValid([QUOTE]);
    ValidConcat([QUOTE], inner);
    EscapedConcat([QUOTE] + inner, [QUOTE], false);
    EscapedConcat([QUOTE], inner, false);
    assert Escaped([QUOTE], false) == [BACKSLASH, QUOTE] + Escaped([], false);
  }

  /** The length of a JSON string inside a JSON string, in one pass over the value. */
  method QuotedJsonStringEncodedLength(value: Text) returns (length: nat)
    ensures length == Capped(|Encode(Encode(value, true), false)|)
  {
    EncodedTwice(value);
    hide Encode, Escaped, EscapeFirst;
    length := 6; // outer quotes plus escaped inner quotes
    var index := 0;
    assert value[0..] == value;
    while index < |value|
      invariant 0 <= index <= |value| && length <= MAX
      invariant length + |Escaped(Escaped(value[index..], true), false)| == |Encode(Encode(value, true), false)|
    {
      ghost var suffix := value[index..];
      EscapedTwiceStep(suffix);
      var character := value[index];
      if character < RUNE_SELF {
        assert DecodeRune(suffix).1 == 1;
        index := index + 1;
        if character in {BACKSLASH, QUOTE} {
          length := length + 4;
        } else if character in {0x08, 0x0C, 0x0A, 0x0D, 0x09} {
          length := length + 3;
        } else if character in {0x3C, 0x3E, 0x26} {
          length := length + 7;
        } else if character < 0x20 {
          length := length + 7;
        } else {
          length := length + 1;
        }
      } else {
        var (r, size) := DecodeRune(value[index..]);
        index := index + size;
        if (r == RUNE_ERROR && size == 1) || r == 0x2028 || r == 0x2029 {
          length := length + 7;
        } else {
          length := length + size;
        }
      }
      assert suffix[DecodeRune(suffix).1..] == value[index..];
      if length > MAX { return MAX + 1; }
    }
    EmptyEscaped();
    assert value[index..] == [];
  }

  lemma EmptyEscaped()
    ensures Escaped(Escaped([], true), false) == []
  {
  }
}
