/** UTF-8 as Go decodes it: an invalid byte is one replacement character of size one. */
module Utf8 {
  import opened Decimals

  const RUNE_SELF := 0x80
  const RUNE_ERROR := 0xFFFD

  type Text = seq<byte>

  predicate Continuation(b: byte) { 0x80 <= b <= 0xBF }

  /** The second byte of a three or four byte rune, which rules out overlong forms and surrogates. */
  predicate SecondByte(first: byte, second: byte) {
    Continuation(second)
    && (first == 0xE0 ==> second >= 0xA0) && (first == 0xED ==> second <= 0x9F)
    && (first == 0xF0 ==> second >= 0x90) && (first == 0xF4 ==> second <= 0x8F)
  }

  /** The length of the valid rune a text starts with, or 0 if it starts with none. */
  function RuneLength(s: Text): (n: nat)
    requires s != []
    ensures n <= |s| && n <= 4
  {
    var b := s[0];
    if b < 0x80 then 1
    else if 0xC2 <= b <= 0xDF then (if |s| >= 2 && Continuation(s[1]) then 2 else 0)
    else if 0xE0 <= b <= 0xEF then (if |s| >= 3 && SecondByte(b, s[1]) && Continuation(s[2]) then 3 else 0)
    else if 0xF0 <= b <= 0xF4
        then (if |s| >= 4 && SecondByte(b, s[1]) && Continuation(s[2]) && Continuation(s[3]) then 4 else 0)
    else 0
  }

  /** The six payload bits of a continuation byte. */
  function Low(b: byte): int {
    b as int - 0x80
  }

  /** The code point and size of the first rune. */
  function DecodeRune(s: Text): (r: (int, nat))
    requires s != []
    ensures 1 <= r.1 <= |s|
  {
    match RuneLength(s)
    case 1 => (s[0], 1)
    case 2 => (64 * (s[0] as int - 0xC0) + Low(s[1]), 2)
    case 3 => (64 * (64 * (s[0] as int - 0xE0) + Low(s[1])) + Low(s[2]), 3)
    case 4 => (64 * (64 * (64 * (s[0] as int - 0xF0) + Low(s[1])) + Low(s[2])) + Low(s[3]), 4)
    case _ => (RUNE_ERROR, 1)
  }

  predicate Valid(s: Text) {
    s == [] || (RuneLength(s) > 0 && Valid(s[RuneLength(s)..]))
  }

  /** A single valid rune. */
  predicate IsRune(s: Text) {
    s != [] && RuneLength(s) == |s|
  }

  /** A complete rune is recognised whatever follows it. */
  lemma RuneLengthLocal(a: Text, b: Text)
    requires a != [] && RuneLength(a) > 0
    ensures RuneLength(a + b) == RuneLength(a) && DecodeRune(a + b) == DecodeRune(a)
  {
    assert forall i :: 0 <= i < |a| ==> (a + b)[i] == a[i];
  }

  /** A rune cut out of a text is that rune. */
  lemma FirstRune(s: Text)
    requires s != [] && RuneLength(s) > 0
    ensures IsRune(s[..RuneLength(s)]) && DecodeRune(s[..RuneLength(s)]) == DecodeRune(s)
  {
    var n := RuneLength(s);
    assert forall i :: 0 <= i < n ==> s[..n][i] == s[i];
  }

  lemma {:induction false} ValidConcat(a: Text, b: Text)
    requires Valid(a) && Valid(b)
    ensures Valid(a + b)
  {
    if a == [] {
      assert a + b == b;
    } else {
      var n := RuneLength(a);
      RuneLengthLocal(a, b);
      assert (a + b)[n..] == a[n..] + b;
      ValidConcat(a[n..], b);
    }
  }

  lemma RuneIsValid(s: Text)
    requires IsRune(s)
    ensures Valid(s)
  {
    assert s[|s|..] == [];
  }

  lemma {:induction false} AsciiIsValid(s: Text)
    requires forall i :: 0 <= i < |s| ==> s[i] < 0x80
    ensures Valid(s)
  {
    if s != [] { AsciiIsValid(s[1..]); }
  }
}
