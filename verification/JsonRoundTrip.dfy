/** Printing and reading JSON are inverse, and the canonical spelling is never longer than what was read. */
module JsonRoundTrip {
  import opened Outcomes
  import opened Decimals
  import opened Utf8
  import JsonNumbers
  import opened JsonStrings
  import opened JsonSyntax

  // ---------------------------------------------------------------------------
  // Runes and escapes
  // ---------------------------------------------------------------------------

  lemma Split64(q: nat, d: int)
    requires 0 <= d < 64
    ensures (64 * q + d) / 64 == q && (64 * q + d) % 64 == d
  {
  }

  lemma EncodeDecodedThree(s: Text)
    requires s != [] && RuneLength(s) == 3
    ensures EncodeRune(DecodeRune(s).0) == s[..3]
  {
    Split64(s[0] - 0xE0, Low(s[1]));
    Split64(64 * (s[0] as int - 0xE0) + Low(s[1]), Low(s[2]));
  }

  lemma EncodeDecodedFour(s: Text)
    requires s != [] && RuneLength(s) == 4
    ensures EncodeRune(DecodeRune(s).0) == s[..4]
  {
    var p := 64 * (s[0] as int - 0xF0) + Low(s[1]);
    Split64(s[0] - 0xF0, Low(s[1]));
    Split64(p, Low(s[2]));
    Split64(64 * p + Low(s[2]), Low(s[3]));
  }

  /** Encoding the code point of a valid rune gives back its bytes. */
  lemma EncodeDecoded(s: Text)
    requires s != [] && RuneLength(s) > 0
    ensures EncodeRune(DecodeRune(s).0) == s[..RuneLength(s)]
  {
    match RuneLength(s)
    case 1 =>
    case 2 => Split64(s[0] - 0xC0, Low(s[1]));
    case 3 => EncodeDecodedThree(s);
    case _ => EncodeDecodedFour(s);
  }

  /** Encoding any code point, or what stands in for it, is one valid rune. */
  lemma EncodedIsRune(r: int)
    ensures IsRune(EncodeRune(r))
  {
  }

  lemma DigitRoundTrip(n: int)
    requires 0 <= n < 16
    ensures HexValue(HexDigit(n)) == Some(n)
  {
  }

  lemma FourHexDigits(r: int)
    requires 0 <= r < 0x10000
    ensures 0 <= r / 4096 < 16 && r == 4096 * (r / 4096) + 256 * (r / 256 % 16) + 16 * (r / 16 % 16) + r % 16
  {
    var q := r / 16;
    assert r == 16 * q + r % 16;
    assert q == 16 * (q / 16) + q % 16 && q / 16 == r / 256;
    assert r / 256 == 16 * (r / 4096) + r / 256 % 16;
  }

  lemma HexRoundTrip(r: int)
    requires 0 <= r < 0x10000
    ensures Hex4(UnicodeEscape(r)[2..]) == Some(r)
  {
    hide HexDigit, HexValue;
    FourHexDigits(r);
    DigitRoundTrip(r / 4096);
    DigitRoundTrip(r / 256 % 16);
    DigitRoundTrip(r / 16 % 16);
    DigitRoundTrip(r % 16);
  }

  /** A unicode escape of anything but a surrogate is read as its rune, whatever follows. */
  lemma UnicodeReads(r: int, t: Text)
    requires 0 <= r < 0x10000 && !Surrogate(r)
    ensures ReadPiece(UnicodeEscape(r) + t) == Some((EncodeRune(r), 6))
  {
    hide HexDigit;
    HexRoundTrip(r);
    var s := UnicodeEscape(r) + t;
    assert s[2..6] == UnicodeEscape(r)[2..] && s[0] == BACKSLASH && s[1] == LETTER_U;
    hide UnicodeEscape, EncodeRune, Hex4;
    assert EscapeAt(s, 0) == Some(r);
  }

  /** Either spelling of a rune is read back as that rune, whatever follows. */
  lemma PieceReads(style: Style, s: Text, t: Text)
    requires s != [] && RuneLength(s) > 0
    ensures ReadPiece(Piece(style, s) + t) == Some((s[..RuneLength(s)], |Piece(style, s)|))
    ensures Piece(style, s)[0] != QUOTE
  {
    var b, n, piece := s[0], RuneLength(s), Piece(style, s);
    if b < RUNE_SELF {
      assert s[..1] == [b];
      if ShortEscape(b) == 0 && |piece| > 1 { UnicodeReads(b, t); }
    } else {
      SizeOfValid(s);
      EncodeDecoded(s);
      if style.Html? && LineSeparator(DecodeRune(s).0) {
        UnicodeReads(DecodeRune(s).0, t);
      } else {
        FirstRune(s);
        RuneLengthLocal(piece, t);
        hide RuneLength, DecodeRune, EncodeRune;
        assert (piece + t)[..n] == piece;
      }
    }
  }

  lemma PrintBodyStep(style: Style, s: Text)
    requires s != [] && RuneLength(s) > 0
    ensures PrintBody(style, s) == Piece(style, s) + PrintBody(style, s[RuneLength(s)..])
  {
    hide Piece;
  }

  /** A printed string body is read back as the string. */
  lemma {:induction false} BodyReads(style: Style, s: Text, rest: Text)
    requires Valid(s)
    ensures ReadBody(PrintBody(style, s) + rest) == Some((s, rest))
  {
    hide ReadPiece, Piece, RuneLength, DecodeRune;
    if s == [] {
      assert ([QUOTE] + rest)[1..] == rest;
    } else {
      var n, piece, body := RuneLength(s), Piece(style, s), PrintBody(style, s[RuneLength(s)..]);
      PrintBodyStep(style, s);
      BodyReads(style, s[n..], rest);
      PieceReads(style, s, body + rest);
      hide PrintBody, Valid;
      assert PrintBody(style, s) + rest == piece + (body + rest);
      assert (piece + (body + rest))[|piece|..] == body + rest;
      assert s[..n] + s[n..] == s;
    }
  }

  // ---------------------------------------------------------------------------
  // Documents
  // ---------------------------------------------------------------------------

  /** Strings are valid UTF-8 and numbers are numbers. */
  ghost predicate Spellable(d: Doc)
    decreases d
  {
    match d
    case DNumber(text) => JsonNumbers.IsNumber(text)
    case DString(s) => Valid(s)
    case DArray(items) => forall i :: 0 <= i < |items| ==> Spellable(items[i])
    case DObject(members) => forall i :: 0 <= i < |members| ==> SpellableMember(members[i])
    case _ => true
  }

  ghost predicate SpellableMember(m: Member)
    decreases m
  {
    Valid(m.key) && Spellable(m.value)
  }

  /** A printed document starts with a byte that is neither space nor a closing mark. */
  lemma PrintStarts(style: Style, d: Doc)
    requires Spellable(d)
    ensures Print(style, d) != []
    ensures var b := Print(style, d)[0]; !Space(b) && b != RBRACKET && b != RBRACE
    ensures d.DNumber? ==> var b := Print(style, d)[0]; Digit(b) || b == JsonNumbers.MINUS
  {
    if d.DNumber? {
      var n :| JsonNumbers.WellFormed(n) && JsonNumbers.Spell(n) == d.text;
      assert Digit(n.integer[0]);
    }
  }

  lemma NumberReads(text: Text, suffix: Text)
    requires JsonNumbers.IsNumber(text) && JsonNumbers.EndsNumber(suffix)
    ensures ParseNumber(text + suffix) == Some((DNumber(text), suffix))
  {
    var n :| JsonNumbers.WellFormed(n) && JsonNumbers.Spell(n) == text;
    JsonNumbers.LexComplete(n, suffix);
  }

  lemma LiteralReads(style: Style, d: Doc, suffix: Text)
    requires d.DNull? || d.DBool?
    ensures Parse(Print(style, d) + suffix) == Some((d, suffix))
  {
    var text := Print(style, d);
    assert text <= text + suffix && (text + suffix)[|text|..] == suffix;
  }

  /** Reading a printed document followed by any admissible text gives back the document and that text. */
  lemma {:induction false} PrintedReads(style: Style, d: Doc, suffix: Text)
    requires Spellable(d) && JsonNumbers.EndsNumber(suffix)
    ensures Parse(Print(style, d) + suffix) == Some((d, suffix))
    decreases d, 1
  {
    hide ParseLiteral, ParseNumber, PrintString, ReadBody;
    var text := Print(style, d);
    var s := text + suffix;
    PrintStarts(style, d);
    assert s[0] == text[0];
    match d
    case DNull => LiteralReads(style, d, suffix);
    case DBool(b) => LiteralReads(style, d, suffix);
    case DNumber(n) => NumberReads(n, suffix);
    case DString(t) => StringReads(style, t, suffix);
    case DArray(items) => ArrayReads(style, items, suffix);
    case DObject(members) => ObjectReads(style, members, suffix);
  }

  lemma StringReads(style: Style, t: Text, suffix: Text)
    requires Valid(t)
    ensures PrintString(style, t) != [] && PrintString(style, t)[0] == QUOTE
    ensures ReadBody((PrintString(style, t) + suffix)[1..]) == Some((t, suffix))
  {
    hide PrintBody, ReadBody, Valid;
    BodyReads(style, t, suffix);
    assert (PrintString(style, t) + suffix)[1..] == PrintBody(style, t) + suffix;
  }

  lemma {:induction false} ArrayReads(style: Style, items: seq<Doc>, suffix: Text)
    requires forall i :: 0 <= i < |items| ==> Spellable(items[i])
    ensures Parse(Print(style, DArray(items)) + suffix) == Some((DArray(items), suffix))
    decreases items, 2
  {
    hide PrintItems, ParseItems, ParseMember, ParseMembers, ReadBody, ParseLiteral, ParseNumber, PrintString,
         PrintMembers, PrintMember;
    var s := Print(style, DArray(items)) + suffix;
    if items == [] {
      assert s == [LBRACKET] + ([RBRACKET] + suffix);
      assert SkipSpace(s[1..]) == [RBRACKET] + suffix;
    } else {
      var first, tail := Print(style, items[0]), PrintItems(style, items[1..]) + suffix;
      assert s[1..] == first + tail;
      PrintStarts(style, items[0]);
      assert SkipSpace(s[1..]) == s[1..];
      TailEndsNumber(style, items[1..], [], suffix);
      PrintedReads(style, items[0], tail);
      ItemsRead(style, items[1..], suffix);
      assert [items[0]] + items[1..] == items;
    }
  }

  lemma TailEndsNumber(style: Style, items: seq<Doc>, members: seq<Member>, suffix: Text)
    ensures JsonNumbers.EndsNumber(PrintItems(style, items) + suffix)
    ensures JsonNumbers.EndsNumber(PrintMembers(style, members) + suffix)
  {
  }

  lemma {:induction false} ItemsRead(style: Style, items: seq<Doc>, suffix: Text)
    requires forall i :: 0 <= i < |items| ==> Spellable(items[i])
    ensures ParseItems(PrintItems(style, items) + suffix) == Some((items, suffix))
    decreases items, 2
  {
    hide Print, Parse;
    var s := PrintItems(style, items) + suffix;
    assert SkipSpace(s) == s;
    if items == [] {
      assert s[1..] == suffix;
    } else {
      var first, tail := Print(style, items[0]), PrintItems(style, items[1..]) + suffix;
      assert s[1..] == first + tail;
      TailEndsNumber(style, items[1..], [], suffix);
      PrintedReads(style, items[0], tail);
      ItemsRead(style, items[1..], suffix);
      assert [items[0]] + items[1..] == items;
    }
  }

  lemma {:induction false} MemberReads(style: Style, m: Member, suffix: Text)
    requires SpellableMember(m) && JsonNumbers.EndsNumber(suffix)
    ensures PrintMember(style, m) != [] && PrintMember(style, m)[0] == QUOTE
    ensures ParseMember(PrintMember(style, m) + suffix) == Some((m, suffix))
    decreases m, 2
  {
    hide PrintString, Print, ReadBody, Parse, Valid, Spellable;
    var value := [COLON] + (Print(style, m.value) + suffix);
    var s := PrintMember(style, m) + suffix;
    assert s == PrintString(style, m.key) + value;
    StringReads(style, m.key, value);
    PrintedReads(style, m.value, suffix);
    assert s[0] == QUOTE && SkipSpace(s) == s;
    assert SkipSpace(value) == value && value[1..] == Print(style, m.value) + suffix;
  }

  lemma {:induction false} ObjectReads(style: Style, members: seq<Member>, suffix: Text)
    requires forall i :: 0 <= i < |members| ==> SpellableMember(members[i])
    ensures Parse(Print(style, DObject(members)) + suffix) == Some((DObject(members), suffix))
    decreases members, 3
  {
    hide PrintMember, PrintMembers, ParseMember, ParseMembers, ReadBody, ParseItems, ParseLiteral, ParseNumber,
         PrintString;
    var s := Print(style, DObject(members)) + suffix;
    if members == [] {
      assert s == [LBRACE] + ([RBRACE] + suffix);
      assert SkipSpace(s[1..]) == [RBRACE] + suffix;
    } else {
      var first, tail := PrintMember(style, members[0]), PrintMembers(style, members[1..]) + suffix;
      assert s[1..] == first + tail;
      TailEndsNumber(style, [], members[1..], suffix);
      MemberReads(style, members[0], tail);
      assert SkipSpace(s[1..]) == s[1..];
      MembersRead(style, members[1..], suffix);
      assert [members[0]] + members[1..] == members;
    }
  }

  lemma {:induction false} MembersRead(style: Style, members: seq<Member>, suffix: Text)
    requires forall i :: 0 <= i < |members| ==> SpellableMember(members[i])
    ensures ParseMembers(PrintMembers(style, members) + suffix) == Some((members, suffix))
    decreases members, 3
  {
    hide PrintMember, ParseMember;
    var s := PrintMembers(style, members) + suffix;
    assert SkipSpace(s) == s;
    if members == [] {
      assert s[1..] == suffix;
    } else {
      var first, tail := PrintMember(style, members[0]), PrintMembers(style, members[1..]) + suffix;
      assert s[1..] == first + tail;
      TailEndsNumber(style, [], members[1..], suffix);
      MemberReads(style, members[0], tail);
      MembersRead(style, members[1..], suffix);
      assert [members[0]] + members[1..] == members;
    }
  }

  /** Printing in either style and reading the whole text back is the identity. */
  lemma PrintedDocumentReads(style: Style, d: Doc)
    requires Spellable(d)
    ensures ParseDocument(Print(style, d)) == Some(d)
  {
    hide Print, Parse;
    PrintedReads(style, d, []);
    assert Print(style, d) + [] == Print(style, d);
  }

  // ---------------------------------------------------------------------------
  // Reading never loses bytes that the canonical spelling needs
  // ---------------------------------------------------------------------------

  lemma {:induction false} DropAscii(a: Text, rest: Text)
    requires Valid(a + rest) && forall i :: 0 <= i < |a| ==> a[i] < 0x80
    ensures Valid(rest)
  {
    if a == [] {
      assert a + rest == rest;
    } else {
      assert (a + rest)[0] == a[0];
      assert (a + rest)[1..] == a[1..] + rest;
      DropAscii(a[1..], rest);
    }
  }

  lemma DropFirst(s: Text, n: nat)
    requires Valid(s) && n <= |s| && forall i :: 0 <= i < n ==> s[i] < 0x80
    ensures Valid(s[n..])
  {
    assert s == s[..n] + s[n..];
    DropAscii(s[..n], s[n..]);
  }

  lemma HexIsAscii(s: Text, at: nat)
    requires EscapeAt(s, at).Some?
    ensures |s| >= at + 6 && forall i :: at <= i < at + 6 ==> s[i] < 0x80
  {
    var h := s[at + 2..at + 6];
    assert h[0] == s[at + 2] && h[1] == s[at + 3] && h[2] == s[at + 4] && h[3] == s[at + 5];
  }

  /** A piece that is read is one rune, and its canonical spelling is no longer than what was read. */
  lemma PieceShrinks(s: Text)
    requires s != [] && s[0] != QUOTE && Valid(s) && ReadPiece(s).Some?
    ensures var (piece, n) := ReadPiece(s).value;
            IsRune(piece) && |CanonicalFirst(piece)| <= n && Valid(s[n..])
  {
    hide ReadUnicode, EncodeRune;
    if s[0] == BACKSLASH {
      if s[1] == LETTER_U {
        UnicodeShrinks(s);
      } else {
        DropFirst(s, 2);
      }
    } else {
      RawShrinks(s);
    }
  }

  lemma RawShrinks(s: Text)
    requires s != [] && RuneLength(s) > 0 && s[0] != QUOTE && s[0] != BACKSLASH && s[0] >= 0x20
    ensures var piece := s[..RuneLength(s)]; IsRune(piece) && |CanonicalFirst(piece)| <= RuneLength(s)
  {
    FirstRune(s);
    if s[0] >= RUNE_SELF {
      SizeOfValid(s);
      hide RuneLength, DecodeRune;
      assert s[..RuneLength(s)][0] == s[0];
    }
  }

  lemma UnicodeShrinks(s: Text)
    requires Valid(s) && ReadUnicode(s).Some?
    ensures var (piece, n) := ReadUnicode(s).value;
            n <= |s| && IsRune(piece) && |CanonicalFirst(piece)| <= n && Valid(s[n..])
  {
    var (piece, n) := ReadUnicode(s).value;
    HexIsAscii(s, 0);
    if n == 12 { HexIsAscii(s, 6); }
    hide Hex4, HexValue;
    DropFirst(s, n);
    hide EscapeAt;
    var r :| piece == EncodeRune(r);
    EncodedIsRune(r);
    hide EncodeRune;
    ShortCanonical(piece);
  }

  lemma ShortCanonical(piece: Text)
    requires IsRune(piece)
    ensures |CanonicalFirst(piece)| <= 6
  {
  }

  lemma BodyCanonicalStep(piece: Text, text: Text)
    requires IsRune(piece)
    ensures PrintBody(Canonical, piece + text) == CanonicalFirst(piece) + PrintBody(Canonical, text)
  {
    var s := piece + text;
    RuneLengthLocal(piece, text);
    SizeOfValid(piece);
    hide RuneLength, DecodeRune;
    assert s[..|piece|] == piece && s[|piece|..] == text && s[0] == piece[0];
    assert piece[..|piece|] == piece;
  }

  lemma {:induction false} BodyShrinks(s: Text)
    requires Valid(s) && ReadBody(s).Some?
    ensures var (text, rest) := ReadBody(s).value;
            Valid(text) && Valid(rest) && |PrintBody(Canonical, text)| + |rest| <= |s|
    decreases |s|
  {
    hide ReadPiece, CanonicalFirst, Piece, DecodeRune;
    if s[0] != QUOTE {
      var (piece, n) := ReadPiece(s).value;
      var (text, rest) := ReadBody(s[n..]).value;
      PieceShrinks(s);
      BodyShrinks(s[n..]);
      BodyCanonicalStep(piece, text);
      RuneIsValid(piece);
      ValidConcat(piece, text);
    }
  }

  /** What reading a value promises: it can be printed, in no more room than it took, and what follows is intact. */
  ghost predicate Shrunk(s: Text, size: nat, rest: Text) {
    Valid(rest) && size + |rest| <= |s|
  }

  lemma {:induction false} SpaceShrinks(s: Text)
    requires Valid(s)
    ensures Valid(SkipSpace(s)) && |SkipSpace(s)| <= |s|
  {
    if s != [] && Space(s[0]) { SpaceShrinks(s[1..]); }
  }

  lemma SpellIsAscii(n: JsonNumbers.Number)
    requires JsonNumbers.WellFormed(n)
    ensures forall i :: 0 <= i < |JsonNumbers.Spell(n)| ==> JsonNumbers.Spell(n)[i] < 0x80
  {
    var a, b := JsonNumbers.SpellFraction(n), JsonNumbers.SpellExponent(n);
    assert forall i :: 0 <= i < |a| ==> a[i] < 0x80;
    ExponentIsAscii(n);
    hide JsonNumbers.SpellFraction, JsonNumbers.SpellExponent;
    assert forall i :: 0 <= i < |n.integer| ==> n.integer[i] < 0x80;
  }

  lemma ExponentIsAscii(n: JsonNumbers.Number)
    requires JsonNumbers.WellFormed(n)
    ensures forall i :: 0 <= i < |JsonNumbers.SpellExponent(n)| ==> JsonNumbers.SpellExponent(n)[i] < 0x80
  {
    if n.exponent.Some? {
      var sign, digits := JsonNumbers.SpellSign(n.exponent.value.sign), n.exponent.value.digits;
      assert forall i :: 0 <= i < |digits| ==> digits[i] < 0x80;
      assert forall i :: 0 <= i < |sign| ==> sign[i] < 0x80;
    }
  }

  lemma NumberShrinks(s: Text)
    requires Valid(s) && ParseNumber(s).Some?
    ensures var (d, rest) := ParseNumber(s).value;
            Spellable(d) && Shrunk(s, |Print(Canonical, d)|, rest)
  {
    var (n, rest) := JsonNumbers.Lex(s).value;
    JsonNumbers.LexSound(s);
    hide JsonNumbers.Lex, JsonNumbers.WellFormed, JsonNumbers.Spell;
    SpellIsAscii(n);
    DropAscii(JsonNumbers.Spell(n), rest);
  }

  lemma LiteralShrinks(s: Text, literal: Text, d: Doc)
    requires literal != [] && forall i :: 0 <= i < |literal| ==> literal[i] < 0x80
    requires Valid(s) && ParseLiteral(s, literal, d).Some?
    ensures ParseLiteral(s, literal, d).value.0 == d && Shrunk(s, |literal|, ParseLiteral(s, literal, d).value.1)
  {
    DropFirst(s, |literal|);
  }

  /** Reading a value never gives up bytes: its canonical spelling fits where it was read. */
  lemma {:induction false} ReadShrinks(s: Text)
    requires Valid(s) && Parse(s).Some?
    ensures var (d, rest) := Parse(s).value; Spellable(d) && Shrunk(s, |Print(Canonical, d)|, rest)
    decreases |s|, 2
  {
    hide ParseItems, ParseMember, ParseMembers, ReadBody, ParseLiteral, ParseNumber, PrintMembers, PrintMember,
         PrintItems, Valid, PrintBody;
    SpaceShrinks(s);
    var t := SkipSpace(s);
    if t[0] == QUOTE {
      DropFirst(t, 1);
      BodyShrinks(t[1..]);
    } else if t[0] == LBRACKET {
      ArrayShrinks(t);
    } else if t[0] == LBRACE {
      ObjectShrinks(t);
    } else if t[0] == 0x6E {
      LiteralShrinks(t, NULL_TEXT, DNull);
    } else if t[0] == 0x74 {
      LiteralShrinks(t, TRUE_TEXT, DBool(true));
    } else if t[0] == 0x66 {
      LiteralShrinks(t, FALSE_TEXT, DBool(false));
    } else {
      NumberShrinks(t);
    }
  }

  lemma {:induction false} ArrayShrinks(t: Text)
    requires t != [] && t[0] == LBRACKET && Valid(t) && Parse(t).Some?
    ensures var (d, rest) := Parse(t).value; Spellable(d) && Shrunk(t, |Print(Canonical, d)|, rest)
    decreases |t|, 1
  {
    hide ParseItems, ParseMember, ParseMembers, ReadBody, ParseLiteral, ParseNumber, PrintMembers, PrintMember,
         PrintItems, Valid, PrintString;
    DropFirst(t, 1);
    SpaceShrinks(t[1..]);
    var u := SkipSpace(t[1..]);
    if u != [] && u[0] == RBRACKET {
      DropFirst(u, 1);
    } else {
      var (first, rest) := Parse(t[1..]).value;
      ReadShrinks(t[1..]);
      ItemsShrink(rest);
      var (items, rest') := ParseItems(rest).value;
      assert ([first] + items)[1..] == items;
    }
  }

  lemma {:induction false} ItemsShrink(s: Text)
    requires Valid(s) && ParseItems(s).Some?
    ensures var (items, rest) := ParseItems(s).value;
            && (forall i :: 0 <= i < |items| ==> Spellable(items[i]))
            && Shrunk(s, |PrintItems(Canonical, items)|, rest)
    decreases |s|, 1
  {
    hide Parse, Print, Spellable, Valid;
    SpaceShrinks(s);
    var u := SkipSpace(s);
    DropFirst(u, 1);
    if u[0] == COMMA {
      var (first, rest) := Parse(u[1..]).value;
      ReadShrinks(u[1..]);
      ItemsShrink(rest);
      var (items, rest') := ParseItems(rest).value;
      assert ([first] + items)[1..] == items;
    }
  }

  lemma {:induction false} MemberShrinks(s: Text)
    requires Valid(s) && ParseMember(s).Some?
    ensures var (m, rest) := ParseMember(s).value;
            SpellableMember(m) && Shrunk(s, |PrintMember(Canonical, m)|, rest)
    decreases |s|, 1
  {
    hide Parse, Print, Spellable, Valid, ReadBody, PrintBody;
    SpaceShrinks(s);
    var u := SkipSpace(s);
    DropFirst(u, 1);
    BodyShrinks(u[1..]);
    var (key, rest) := ReadBody(u[1..]).value;
    SpaceShrinks(rest);
    var v := SkipSpace(rest);
    DropFirst(v, 1);
    ReadShrinks(v[1..]);
  }

  lemma {:induction false} MembersShrink(s: Text)
    requires Valid(s) && ParseMembers(s).Some?
    ensures var (members, rest) := ParseMembers(s).value;
            && (forall i :: 0 <= i < |members| ==> SpellableMember(members[i]))
            && Shrunk(s, |PrintMembers(Canonical, members)|, rest)
    decreases |s|, 1
  {
    hide ParseMember, PrintMember, SpellableMember, Valid;
    SpaceShrinks(s);
    var u := SkipSpace(s);
    DropFirst(u, 1);
    if u[0] == COMMA {
      var (first, rest) := ParseMember(u[1..]).value;
      MemberShrinks(u[1..]);
      MembersShrink(rest);
      var (members, rest') := ParseMembers(rest).value;
      assert ([first] + members)[1..] == members;
    }
  }

  lemma {:induction false} ObjectShrinks(t: Text)
    requires t != [] && t[0] == LBRACE && Valid(t) && Parse(t).Some?
    ensures var (d, rest) := Parse(t).value; Spellable(d) && Shrunk(t, |Print(Canonical, d)|, rest)
    decreases |t|, 1
  {
    hide ParseItems, ParseMember, ParseMembers, ReadBody, ParseLiteral, ParseNumber, PrintMembers, PrintMember,
         PrintItems, Valid, PrintString, SpellableMember;
    DropFirst(t, 1);
    SpaceShrinks(t[1..]);
    var u := SkipSpace(t[1..]);
    if u != [] && u[0] == RBRACE {
      DropFirst(u, 1);
    } else {
      var (first, rest) := ParseMember(t[1..]).value;
      MemberShrinks(t[1..]);
      MembersShrink(rest);
      var (members, rest') := ParseMembers(rest).value;
      assert ([first] + members)[1..] == members;
    }
  }
}
