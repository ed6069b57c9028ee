/**
 * JSON texts: documents as written, how they are printed, and how Go's decoder reads them
 * (the grammar of sections 2 to 7 of RFC 8259).
 */
module JsonSyntax {
  import opened Outcomes
  import opened Decimals
  import opened Utf8
  import JsonNumbers
  import opened JsonStrings

  const COMMA: byte := 0x2C
  const COLON: byte := 0x3A
  const LBRACKET: byte := 0x5B
  const RBRACKET: byte := 0x5D
  const LBRACE: byte := 0x7B
  const RBRACE: byte := 0x7D
  const SLASH: byte := 0x2F

  const NULL_TEXT: Text := [0x6E, 0x75, 0x6C, 0x6C]
  const TRUE_TEXT: Text := [0x74, 0x72, 0x75, 0x65]
  const FALSE_TEXT: Text := [0x66, 0x61, 0x6C, 0x73, 0x65]

  /** A JSON text without its whitespace and its choice of escapes; members keep their order and may repeat. */
  datatype Doc =
    | DNull
    | DBool(b: bool)
    | DNumber(text: Text)
    | DString(s: Text)
    | DArray(items: seq<Doc>)
    | DObject(members: seq<Member>)

  datatype Member = Member(key: Text, value: Doc)

  // ---------------------------------------------------------------------------
  // Printing
  // ---------------------------------------------------------------------------

  /** The canonical spelling of strings, and the one encoding/json writes with HTML escapes. */
  datatype Style = Canonical | Html

  /** The canonical spelling of the first rune of a text. */
  function CanonicalFirst(s: Text): (piece: Text)
    requires s != []
    ensures piece != []
  {
    var b := s[0];
    if b < RUNE_SELF then
      if ShortEscape(b) != 0 then [BACKSLASH, ShortEscape(b)] else if b < 0x20 then UnicodeEscape(b) else [b]
    else
      s[..DecodeRune(s).1]
  }

  function Piece(style: Style, s: Text): (piece: Text)
    requires s != []
    ensures piece != []
  {
    if style.Canonical? then CanonicalFirst(s) else EscapeFirst(s, true)
  }

  /** The runes of a string spelled one after another, and the closing quote. */
  function PrintBody(style: Style, s: Text): Text {
    if s == [] then [QUOTE] else Piece(style, s) + PrintBody(style, s[DecodeRune(s).1..])
  }

  function PrintString(style: Style, s: Text): Text {
    [QUOTE] + PrintBody(style, s)
  }

  function Print(style: Style, d: Doc): Text
    decreases d
  {
    match d
    case DNull => NULL_TEXT
    case DBool(b) => if b then TRUE_TEXT else FALSE_TEXT
    case DNumber(text) => text
    case DString(s) => PrintString(style, s)
    case DArray(items) =>
      [LBRACKET] + (if items == [] then [RBRACKET] else Print(style, items[0]) + PrintItems(style, items[1..]))
    case DObject(members) =>
      [LBRACE] + (if members == [] then [RBRACE]
                  else PrintMember(style, members[0]) + PrintMembers(style, members[1..]))
  }

  /** The items after the first, each behind its comma, and the closing bracket. */
  function PrintItems(style: Style, items: seq<Doc>): Text
    decreases items
  {
    if items == [] then [RBRACKET] else [COMMA] + (Print(style, items[0]) + PrintItems(style, items[1..]))
  }

  function PrintMember(style: Style, m: Member): Text
    decreases m
  {
    PrintString(style, m.key) + ([COLON] + Print(style, m.value))
  }

  function PrintMembers(style: Style, members: seq<Member>): Text
    decreases members
  {
    if members == [] then [RBRACE] else [COMMA] + (PrintMember(style, members[0]) + PrintMembers(style, members[1..]))
  }

  // ---------------------------------------------------------------------------
  // Reading strings
  // ---------------------------------------------------------------------------

  function HexValue(b: byte): Option<int> {
    if 0x30 <= b <= 0x39 then Some(b - 0x30)
    else if 0x61 <= b <= 0x66 then Some(b - 0x61 + 10)
    else if 0x41 <= b <= 0x46 then Some(b - 0x41 + 10)
    else None
  }

  /** Four hexadecimal digits. */
  function Hex4(s: Text): Option<int>
    requires |s| == 4
  {
    var a, b, c, d := HexValue(s[0]), HexValue(s[1]), HexValue(s[2]), HexValue(s[3]);
    if a.Some? && b.Some? && c.Some? && d.Some? then Some(4096 * a.value + 256 * b.value + 16 * c.value + d.value)
        else None
  }

  predicate Surrogate(r: int) { 0xD800 <= r < 0xE000 }

  /** The UTF-8 form of a code point; what is not one becomes the replacement character. */
  function EncodeRune(r: int): Text {
    if 0 <= r < 0x80 then [r]
    else if 0x80 <= r < 0x800 then [0xC0 + r / 64, 0x80 + r % 64]
    else if 0x800 <= r < 0x10000 && !Surrogate(r) then [0xE0 + r / 64 / 64, 0x80 + r / 64 % 64, 0x80 + r % 64]
    else if 0x10000 <= r < 0x110000
        then [0xF0 + r / 64 / 64 / 64, 0x80 + r / 64 / 64 % 64, 0x80 + r / 64 % 64, 0x80 + r % 64]
    else [0xEF, 0xBF, 0xBD]
  }

  /** The four digits of the unicode escape at a position, if there is one. */
  function EscapeAt(s: Text, at: nat): Option<int> {
    if |s| >= at + 6 && s[at] == BACKSLASH && s[at + 1] == LETTER_U then Hex4(s[at + 2..at + 6]) else None
  }

  /** A unicode escape; two that form a surrogate pair are one rune, a surrogate alone is replaced. */
  function ReadUnicode(s: Text): Option<(Text, nat)> {
    match EscapeAt(s, 0)
    case None => None
    case Some(r) =>
      if 0xD800 <= r < 0xDC00 then
        match EscapeAt(s, 6)
        case Some(r') =>
          if 0xDC00 <= r' < 0xE000 then Some((EncodeRune(0x10000 + 1024 * (r - 0xD800) + (r' - 0xDC00)), 12))
                         else Some((EncodeRune(RUNE_ERROR), 6))
        case None => Some((EncodeRune(RUNE_ERROR), 6))
      else Some((EncodeRune(r), 6))
  }

  function Unescape(letter: byte): byte {
    if letter == 0x62 then 0x08
    else if letter == 0x66 then 0x0C
    else if letter == 0x6E then 0x0A
    else if letter == 0x72 then 0x0D
    else if letter == 0x74 then 0x09
    else if letter == QUOTE || letter == BACKSLASH || letter == SLASH then letter
    else 0
  }

  /** What the next bytes of a string body stand for, and how many they are. */
  function ReadPiece(s: Text): (r: Option<(Text, nat)>)
    requires s != []
    ensures r.Some? ==> 1 <= r.value.1 <= |s|
  {
    var b := s[0];
    if b == BACKSLASH then
      if |s| < 2 then None
      else if s[1] == LETTER_U then ReadUnicode(s)
      else if Unescape(s[1]) != 0 then Some(([Unescape(s[1])], 2))
      else None
    else if b < 0x20 then None
    else if RuneLength(s) > 0 then Some((s[..RuneLength(s)], RuneLength(s)))
    else Some((EncodeRune(RUNE_ERROR), 1))
  }

  /** The rest of a string after its opening quote. */
  function ReadBody(s: Text): (r: Option<(Text, Text)>)
    ensures r.Some? ==> |r.value.1| < |s|
  {
    if s == [] then None
    else if s[0] == QUOTE then Some(([], s[1..]))
    else
      match ReadPiece(s)
      case None => None
      case Some((piece, n)) =>
        match ReadBody(s[n..])
        case None => None
        case Some((text, rest)) => Some((piece + text, rest))
  }

  // ---------------------------------------------------------------------------
  // Reading documents
  // ---------------------------------------------------------------------------

  predicate Space(b: byte) { b == 0x20 || b == 0x09 || b == 0x0A || b == 0x0D }

  function SkipSpace(s: Text): (r: Text)
    ensures |r| <= |s| && (r != [] ==> !Space(r[0]))
  {
    if s != [] && Space(s[0]) then SkipSpace(s[1..]) else s
  }

  function ParseLiteral(s: Text, literal: Text, d: Doc): (r: Option<(Doc, Text)>)
    requires literal != []
    ensures r.Some? ==> |r.value.1| < |s|
  {
    if literal <= s then Some((d, s[|literal|..])) else None
  }

  function ParseNumber(s: Text): (r: Option<(Doc, Text)>)
    ensures r.Some? ==> |r.value.1| < |s|
  {
    match JsonNumbers.Lex(s)
    case None => None
    case Some((n, rest)) =>
      JsonNumbers.LexSound(s);
      Some((DNumber(JsonNumbers.Spell(n)), rest))
  }

  function Parse(s: Text): (r: Option<(Doc, Text)>)
    ensures r.Some? ==> |r.value.1| < |s|
    decreases |s|, 1
  {
    var t := SkipSpace(s);
    if t == [] then None
    else if t[0] == QUOTE then
      match ReadBody(t[1..])
      case None => None
      case Some((text, rest)) => Some((DString(text), rest))
    else if t[0] == LBRACKET then
      var u := SkipSpace(t[1..]);
      if u != [] && u[0] == RBRACKET then Some((DArray([]), u[1..]))
      else
        match Parse(t[1..])
        case None => None
        case Some((first, rest)) =>
          match ParseItems(rest)
          case None => None
          case Some((items, rest')) => Some((DArray([first] + items), rest'))
    else if t[0] == LBRACE then
      var u := SkipSpace(t[1..]);
      if u != [] && u[0] == RBRACE then Some((DObject([]), u[1..]))
      else
        match ParseMember(t[1..])
        case None => None
        case Some((first, rest)) =>
          match ParseMembers(rest)
          case None => None
          case Some((members, rest')) => Some((DObject([first] + members), rest'))
    else if t[0] == 0x6E then ParseLiteral(t, NULL_TEXT, DNull)
    else if t[0] == 0x74 then ParseLiteral(t, TRUE_TEXT, DBool(true))
    else if t[0] == 0x66 then ParseLiteral(t, FALSE_TEXT, DBool(false))
    else ParseNumber(t)
  }

  function ParseItems(s: Text): (r: Option<(seq<Doc>, Text)>)
    ensures r.Some? ==> |r.value.1| < |s|
    decreases |s|, 0
  {
    var u := SkipSpace(s);
    if u == [] then None
    else if u[0] == RBRACKET then Some(([], u[1..]))
    else if u[0] == COMMA then
      match Parse(u[1..])
      case None => None
      case Some((first, rest)) =>
        match ParseItems(rest)
        case None => None
        case Some((items, rest')) => Some(([first] + items, rest'))
    else None
  }

  function ParseMember(s: Text): (r: Option<(Member, Text)>)
    ensures r.Some? ==> |r.value.1| < |s|
    decreases |s|, 0
  {
    var u := SkipSpace(s);
    if u == [] || u[0] != QUOTE then None
    else
      match ReadBody(u[1..])
      case None => None
      case Some((key, rest)) =>
        var v := SkipSpace(rest);
        if v == [] || v[0] != COLON then None
        else
          match Parse(v[1..])
          case None => None
          case Some((value, rest')) => Some((Member(key, value), rest'))
  }

  function ParseMembers(s: Text): (r: Option<(seq<Member>, Text)>)
    ensures r.Some? ==> |r.value.1| < |s|
    decreases |s|, 0
  {
    var u := SkipSpace(s);
    if u == [] then None
    else if u[0] == RBRACE then Some(([], u[1..]))
    else if u[0] == COMMA then
      match ParseMember(u[1..])
      case None => None
      case Some((first, rest)) =>
        match ParseMembers(rest)
        case None => None
        case Some((members, rest')) => Some(([first] + members, rest'))
    else None
  }

  /** A whole document: one value and nothing but whitespace around it. */
  function ParseDocument(s: Text): Option<Doc> {
    match Parse(s)
    case None => None
    case Some((d, rest)) => if SkipSpace(rest) == [] then Some(d) else None
  }
}
