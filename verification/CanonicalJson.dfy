/** Canonical JSON: the writer, the structural checks, and the canonicalizer built from them. */
module CanonicalJson {
  import opened Outcomes
  import opened Utf8
  import JsonNumbers
  import opened JsonStrings
  import opened JsonSyntax
  import opened JsonRoundTrip
  import opened JsonValues
  import opened Ordering

  const MAX_DOCUMENT_BYTES := 1024 * 1024
  const MAX_NODES := 100_000

  // ---------------------------------------------------------------------------
  // Writing strings
  // ---------------------------------------------------------------------------

  /** What the writer appends for one rune. */
  function RuneSpelling(r: int): Text
    requires 0 <= r
  {
    if r == QUOTE || r == BACKSLASH then [BACKSLASH, r]
    else if r == 0x08 then [BACKSLASH, 0x62]
    else if r == 0x0C then [BACKSLASH, 0x66]
    else if r == 0x0A then [BACKSLASH, 0x6E]
    else if r == 0x0D then [BACKSLASH, 0x72]
    else if r == 0x09 then [BACKSLASH, 0x74]
    else if r < 0x20 then [BACKSLASH, LETTER_U, 0x30, 0x30, HexDigit(r / 16), HexDigit(r % 16)]
    else EncodeRune(r)
  }

  lemma RuneIsSpelled(s: Text)
    requires s != [] && RuneLength(s) > 0
    ensures DecodeRune(s).0 >= 0 && RuneSpelling(DecodeRune(s).0) == CanonicalFirst(s)
  {
    if s[0] >= RUNE_SELF {
      WideRune(s);
      EncodeDecoded(s);
      SizeOfValid(s);
      hide DecodeRune, RuneLength, EncodeRune;
      assert RuneSpelling(DecodeRune(s).0) == CanonicalFirst(s);
    }
  }

  lemma WideRune(s: Text)
    requires s != [] && RuneLength(s) > 0 && s[0] >= RUNE_SELF
    ensures DecodeRune(s).0 >= RUNE_SELF
  {
  }

  method AppendCanonicalString(out: Text, value: Text) returns (r: Option<Text>)
    ensures r == if Valid(value) then Some(out + PrintString(Canonical, value)) else None
  {
    hide RuneSpelling, CanonicalFirst, RuneLength, DecodeRune;
    if !Valid(value) { return None; }
    var result, rest := out + [QUOTE], value;
    while rest != []
      invariant Valid(rest)
      invariant result + PrintBody(Canonical, rest) == out + PrintString(Canonical, value)
      decreases |rest|
    {
      RuneIsSpelled(rest);
      SizeOfValid(rest);
      var (rune, size) := DecodeRune(rest);
      assert result + PrintBody(Canonical, rest) == (result + RuneSpelling(rune)) + PrintBody(Canonical, rest[size..]);
      result := result + RuneSpelling(rune);
      rest := rest[size..];
    }
    r := Some(result + [QUOTE]);
  }

  // ---------------------------------------------------------------------------
  // Sorting keys
  // ---------------------------------------------------------------------------

  ghost predicate Distinct(keys: seq<Text>) {
    forall i, j :: 0 <= i < j < |keys| ==> keys[i] != keys[j]
  }

  /** Where a new key belongs in an increasing list. */
  method Position(sorted: seq<Text>, key: Text) returns (at: nat)
    requires Ascending(sorted) && key !in sorted
    ensures at <= |sorted| && Ascending(sorted[..at] + [key] + sorted[at..])
  {
    at := |sorted|;
    while at > 0 && TextLess(key, sorted[at - 1])
      invariant at <= |sorted| && forall j :: at <= j < |sorted| ==> TextLess(key, sorted[j])
    {
      at := at - 1;
    }
    if at > 0 {
      LexTotal(ByteCode, sorted[at - 1], key);
      forall j | 0 <= j < at ensures TextLess(sorted[j], key) {
        if j < at - 1 { LexTransitive(ByteCode, sorted[j], sorted[at - 1], key); }
      }
    }
    hide TextLess;
    var longer := sorted[..at] + [key] + sorted[at..];
    forall i, j | 0 <= i < j < |longer| ensures TextLess(longer[i], longer[j]) {
      assert longer[i] == if i < at then sorted[i] else if i == at then key else sorted[i - 1];
      assert longer[j] == if j < at then sorted[j] else if j == at then key else sorted[j - 1];
    }
  }

  method SortStrings(keys: seq<Text>) returns (sorted: seq<Text>)
    requires Distinct(keys)
    ensures sorted == SortedKeys(set k | k in keys)
  {
    hide TextLess, SortedKeys;
    sorted := [];
    for i := 0 to |keys|
      invariant Ascending(sorted) && forall k :: k in sorted <==> k in keys[..i]
    {
      var at := Position(sorted, keys[i]);
      assert forall k :: k in sorted <==> k in sorted[..at] || k in sorted[at..];
      sorted := sorted[..at] + [keys[i]] + sorted[at..];
      assert forall k :: k in keys[..i + 1] <==> k in keys[..i] || k == keys[i];
    }
    assert keys[..|keys|] == keys;
    assert (set k | k in sorted) == (set k | k in keys);
    AscendingIsSorted(sorted, set k | k in keys);
  }

  // ---------------------------------------------------------------------------
  // Writing values
  // ---------------------------------------------------------------------------

  /** What is still to be written of an array after its first n items. */
  ghost function ItemsAfter(items: seq<Doc>, n: nat): Text
    requires n <= |items|
  {
    if n == 0 && items != [] then Print(Canonical, items[0]) + PrintItems(Canonical, items[1..])
    else PrintItems(Canonical, items[n..])
  }

  ghost function MembersAfter(members: seq<Member>, n: nat): Text
    requires n <= |members|
  {
    if n == 0 && members != [] then PrintMember(Canonical, members[0]) + PrintMembers(Canonical, members[1..])
    else PrintMembers(Canonical, members[n..])
  }

  function Comma(n: nat): Text {
    if n > 0 then [COMMA] else []
  }

  lemma NextItem(items: seq<Doc>, n: nat)
    requires n < |items|
    ensures ItemsAfter(items, n) == Comma(n) + (Print(Canonical, items[n]) + ItemsAfter(items, n + 1))
  {
    hide Print;
    assert items[n..][1..] == items[n + 1..];
  }

  lemma NextMember(members: seq<Member>, n: nat)
    requires n < |members|
    ensures MembersAfter(members, n) == Comma(n) + (PrintMember(Canonical, members[n]) + MembersAfter(members, n + 1))
  {
    hide PrintMember;
    assert members[n..][1..] == members[n + 1..];
  }

  /** Writing the next part of a text whose rest is known leaves the rest after that part. */
  lemma Written(result: Text, comma: Text, part: Text, rest: Text)
    ensures (result + comma + part) + rest == result + (comma + (part + rest))
  {
  }

  method AppendCanonical(out: Text, value: Value, depth: nat) returns (r: Option<Text>)
    ensures r == if Canonicalizable(value, depth) then Some(out + Print(Canonical, SortedDoc(value))) else None
    decreases value, 1
  {
    hide PrintString, PrintItems, PrintMembers, MembersAt;
    if depth > MAX_DEPTH { return None; }
    match value
    case VNull => r := Some(out + NULL_TEXT);
    case VBool(b) => r := Some(out + if b then TRUE_TEXT else FALSE_TEXT);
    case VString(s) => r := AppendCanonicalString(out, s);
    case VNumber(text) => r := if IntegerText(text) then Some(out + text) else None;
    case VArray(items) => r := AppendItems(out, value, depth);
    case VObject(fields) => r := AppendMembers(out, value, depth);
  }

  method AppendItems(out: Text, value: Value, depth: nat) returns (r: Option<Text>)
    requires value.VArray? && depth <= MAX_DEPTH
    ensures r == if Canonicalizable(value, depth) then Some(out + Print(Canonical, SortedDoc(value))) else None
    decreases value, 0
  {
    var items := value.items;
    ghost var docs := SortedItems(items);
    var result := out + [LBRACKET];
    ArrayStart(docs);
    hide SortedDoc, Print, ItemsAfter;
    for i := 0 to |items|
      invariant forall j :: 0 <= j < i ==> Canonicalizable(items[j], depth + 1)
      invariant result + ItemsAfter(docs, i) == out + Print(Canonical, DArray(docs))
    {
      NextItem(docs, i);
      Written(result, Comma(i), Print(Canonical, docs[i]), ItemsAfter(docs, i + 1));
      var next := AppendCanonical(result + Comma(i), items[i], depth + 1);
      if next.None? { return None; }
      result := next.value;
    }
    AfterLast(docs, []);
    ArraySorted(value);
    r := Some(result + [RBRACKET]);
  }

  lemma ArrayStart(items: seq<Doc>)
    ensures Print(Canonical, DArray(items)) == [LBRACKET] + ItemsAfter(items, 0)
  {
  }

  lemma AfterLast(items: seq<Doc>, members: seq<Member>)
    ensures ItemsAfter(items, |items|) == [RBRACKET]
    ensures MembersAfter(members, |members|) == [RBRACE]
  {
  }

  lemma ArraySorted(v: Value)
    requires v.VArray?
    ensures SortedDoc(v) == DArray(SortedItems(v.items))
  {
  }

  /** The keys of a map come out in no particular order and are then sorted. */
  method OrderedKeys(fields: map<Text, Value>) returns (sorted: seq<Text>)
    ensures sorted == SortedKeys(fields.Keys)
  {
    hide SortedKeys;
    var keys: seq<Text> := [];
    var left := fields.Keys;
    while left != {}
      invariant left <= fields.Keys && Distinct(keys)
      invariant forall k :: k in keys <==> k in fields.Keys && k !in left
      decreases left
    {
      var key :| key in left;
      keys := keys + [key];
      left := left - {key};
    }
    assert (set k | k in keys) == fields.Keys;
    sorted := SortStrings(keys);
  }

  method AppendMembers(out: Text, value: Value, depth: nat) returns (r: Option<Text>)
    requires value.VObject? && depth <= MAX_DEPTH
    ensures r == if Canonicalizable(value, depth) then Some(out + Print(Canonical, SortedDoc(value))) else None
    decreases value, 0
  {
    hide SortedDoc, Print, MembersAfter, MembersAt, SortedKeys, PrintMember, PrintString, Valid;
    var fields := value.fields;
    var keys := OrderedKeys(fields);
    ObjectSorted(value);
    ghost var docs := SortedDoc(value).members;
    var result := out + [LBRACE];
    for i := 0 to |keys|
      invariant forall j :: 0 <= j < i ==> Valid(keys[j]) && Canonicalizable(fields[keys[j]], depth + 1)
      invariant result + MembersAfter(docs, i) == out + Print(Canonical, SortedDoc(value))
    {
      NextMember(docs, i);
      Written(result, Comma(i), PrintMember(Canonical, docs[i]), MembersAfter(docs, i + 1));
      var next := AppendMember(result + Comma(i), value, keys[i], depth);
      if next.None? { return None; }
      result := next.value;
    }
    AfterLast([], docs);
    forall k <- fields ensures Valid(k) && Canonicalizable(fields[k], depth + 1) { assert k in (set j | j in keys); }
    r := Some(result + [RBRACE]);
  }

  method AppendMember(out: Text, value: Value, key: Text, depth: nat) returns (r: Option<Text>)
    requires value.VObject? && key in value.fields && depth <= MAX_DEPTH
    ensures r == if Valid(key) && Canonicalizable(value.fields[key], depth + 1)
                 then Some(out + PrintMember(Canonical, Member(key, SortedDoc(value.fields[key])))) else None
    decreases value, 0, 0
  {
    hide SortedDoc, Print, PrintString, Valid, Canonicalizable;
    var named := AppendCanonicalString(out, key);
    if named.None? { return None; }
    Written(out, PrintString(Canonical, key), [COLON], Print(Canonical, SortedDoc(value.fields[key])));
    r := AppendCanonical(named.value + [COLON], value.fields[key], depth + 1);
  }

  lemma ObjectSorted(v: Value)
    requires v.VObject?
    ensures SortedDoc(v).DObject?
    ensures var keys := SortedKeys(v.fields.Keys); var members := SortedDoc(v).members;
            && (set k | k in keys) == v.fields.Keys && |members| == |keys|
            && (forall i :: 0 <= i < |keys| ==>
                  keys[i] in v.fields && members[i] == Member(keys[i], SortedDoc(v.fields[keys[i]])))
            && (forall out: Text :: (out + [LBRACE]) + MembersAfter(members, 0) == out + Print(Canonical, SortedDoc(v)))
  {
    SortedKeysAscend(v.fields.Keys);
    var keys := SortedKeys(v.fields.Keys);
    var members := SortedDoc(v).members;
    hide SortedKeys, SortedDoc;
    forall i | 0 <= i < |keys| ensures keys[i] in v.fields { assert keys[i] in (set k | k in keys); }
    forall out: Text ensures (out + [LBRACE]) + MembersAfter(members, 0) == out + Print(Canonical, DObject(members)) {}
  }

  // ---------------------------------------------------------------------------
  // Structural checks
  // ---------------------------------------------------------------------------

  /** Walks a document once, counting values and failing at the first limit it passes. */
  method Consume(d: Doc, depth: nat, nodes: nat) returns (ok: bool, total: nat)
    requires nodes <= MAX_NODES
    ensures ok <==> Structured(d, depth) && nodes + Weigh(Nodes, d) <= MAX_NODES
    ensures ok ==> total == nodes + Weigh(Nodes, d)
    decreases d, 1
  {
    total := nodes;
    if depth > MAX_DEPTH { return false, total; }
    total := nodes + 1;
    if total > MAX_NODES { return false, total; }
    match d
    case DObject(members) => ok, total := ConsumeMembers(members, depth, total);
    case DArray(items) => ok, total := ConsumeItems(items, depth, total);
    case _ => ok := true;
  }

  method ConsumeItems(items: seq<Doc>, depth: nat, nodes: nat) returns (ok: bool, total: nat)
    requires nodes <= MAX_NODES
    ensures ok <==>
              (forall i :: 0 <= i < |items| ==> Structured(items[i], depth + 1))
              && nodes + WeighItems(Nodes, items) <= MAX_NODES
    ensures ok ==> total == nodes + WeighItems(Nodes, items)
    decreases items, 2
  {
    hide Weigh, Structured;
    total := nodes;
    for i := 0 to |items|
      invariant forall j :: 0 <= j < i ==> Structured(items[j], depth + 1)
      invariant total <= MAX_NODES && total + WeighItems(Nodes, items[i..]) == nodes + WeighItems(Nodes, items)
    {
      assert items[i..][1..] == items[i + 1..];
      ok, total := Consume(items[i], depth + 1, total);
      if !ok { return; }
    }
    ok := true;
  }

  method ConsumeMembers(members: seq<Member>, depth: nat, nodes: nat) returns (ok: bool, total: nat)
    requires nodes <= MAX_NODES
    ensures ok <==>
              DistinctKeys(members) && (forall i :: 0 <= i < |members| ==> StructuredMember(members[i], depth + 1))
                    && nodes + WeighMembers(Nodes, members) <= MAX_NODES
    ensures ok ==> total == nodes + WeighMembers(Nodes, members)
    decreases members, 2
  {
    hide Weigh, Structured;
    total := nodes;
    var keys: set<Text> := {};
    for i := 0 to |members|
      invariant DistinctKeys(members[..i]) && keys == KeysOf(members[..i])
      invariant forall j :: 0 <= j < i ==> StructuredMember(members[j], depth + 1)
      invariant total <= MAX_NODES && total + WeighMembers(Nodes, members[i..]) == nodes + WeighMembers(Nodes, members)
    {
      var key := members[i].key;
      if key in keys {
        var j :| 0 <= j < i && members[..i][j].key == key;
        return false, total;
      }
      MoreKeys(members, i);
      keys := keys + {key};
      assert members[i..][1..] == members[i + 1..];
      ok, total := ConsumeMember(members[i], depth + 1, total);
      if !ok { return; }
    }
    assert members[..|members|] == members;
    ok := true;
  }

  lemma MoreKeys(members: seq<Member>, i: nat)
    requires i < |members| && DistinctKeys(members[..i]) && members[i].key !in KeysOf(members[..i])
    ensures DistinctKeys(members[..i + 1]) && KeysOf(members[..i + 1]) == KeysOf(members[..i]) + {members[i].key}
  {
    var shorter, longer := members[..i], members[..i + 1];
    forall j | 0 <= j < i ensures longer[j] == shorter[j] && shorter[j].key in KeysOf(shorter) {}
    assert longer[i].key in KeysOf(longer);
    forall j | 0 <= j < i ensures longer[j].key in KeysOf(longer) {}
  }

  method ConsumeMember(m: Member, depth: nat, nodes: nat) returns (ok: bool, total: nat)
    requires nodes <= MAX_NODES
    ensures ok <==> StructuredMember(m, depth) && nodes + WeighMember(Nodes, m) <= MAX_NODES
    ensures ok ==> total == nodes + WeighMember(Nodes, m)
    decreases m, 2
  {
    hide Weigh, Structured;
    ok, total := Consume(m.value, depth, nodes);
  }

  // ---------------------------------------------------------------------------
  // The canonicalizer
  // ---------------------------------------------------------------------------

  /** The document a text holds, if it is one that is accepted at all. */
  ghost function Accepted(raw: Text): Option<Doc> {
    if 1 <= |raw| <= MAX_DOCUMENT_BYTES && Valid(raw) && ParseDocument(raw).Some?
    then
      var d := ParseDocument(raw).value;
      if Structured(d, 0) && Weigh(Nodes, d) <= MAX_NODES && Canonicalizable(Decode(d), 0) then Some(d) else None
    else None
  }

  /** Encoding, decoding and writing a value with its keys sorted. */
  method CanonicalValue(value: Value) returns (r: Option<Text>)
    requires Spellable(SortedDoc(value))
    ensures r == if Canonicalizable(value, 0) then Some(Print(Canonical, SortedDoc(value))) else None
  {
    hide Print, SortedDoc, ParseDocument;
    var raw := Print(Html, SortedDoc(value));
    PrintedDocumentReads(Html, SortedDoc(value));
    SortedDocMeans(value);
    var decoded := Decode(ParseDocument(raw).value);
    r := AppendCanonical([], decoded, 0);
    assert [] + Print(Canonical, SortedDoc(value)) == Print(Canonical, SortedDoc(value));
  }

  method CanonicalJSON(raw: Text) returns (r: Option<Text>)
    ensures r == if Accepted(raw).Some? then Some(Print(Canonical, SortedDoc(Decode(Accepted(raw).value)))) else None
  {
    hide Print, SortedDoc, ParseDocument, Structured, Canonicalizable, Decode, Valid;
    if |raw| == 0 || |raw| > MAX_DOCUMENT_BYTES || !Valid(raw) { return None; }
    var parsed := ParseDocument(raw);
    if parsed.None? { return None; }
    var ok, _ := Consume(parsed.value, 0, 0);
    if !ok { return None; }
    DocumentShrinks(raw);
    SortedIsSpellable(parsed.value, 0);
    r := CanonicalValue(Decode(parsed.value));
  }

  lemma DocumentShrinks(raw: Text)
    requires Valid(raw) && ParseDocument(raw).Some?
    ensures Spellable(ParseDocument(raw).value) && |Print(Canonical, ParseDocument(raw).value)| <= |raw|
  {
    hide Parse, Print, Spellable, Valid;
    ReadShrinks(raw);
  }

  /** Sorting the keys of a document that can be printed gives one that can be printed. */
  lemma {:induction false} SortedIsSpellable(d: Doc, depth: nat)
    requires Spellable(d) && Structured(d, depth)
    ensures Spellable(SortedDoc(Decode(d)))
    decreases d, 1
  {
    match d
    case DArray(items) =>
      forall i | 0 <= i < |items| ensures Spellable(SortedDoc(Decode(items[i]))) {
        SortedIsSpellable(items[i], depth + 1);
      }
    case DObject(members) =>
      forall i | 0 <= i < |members| ensures Spellable(SortedDoc(Decode(members[i].value))) {
        MemberIsSpellable(members[i], depth + 1);
      }
      ObjectIsSpellable(members);
    case _ =>
  }

  lemma {:induction false} MemberIsSpellable(m: Member, depth: nat)
    requires SpellableMember(m) && StructuredMember(m, depth)
    ensures Spellable(SortedDoc(Decode(m.value)))
    decreases m, 2
  {
    SortedIsSpellable(m.value, depth);
  }

  lemma ObjectIsSpellable(members: seq<Member>)
    requires DistinctKeys(members) && forall i :: 0 <= i < |members| ==> Valid(members[i].key)
    requires forall i :: 0 <= i < |members| ==> Spellable(SortedDoc(Decode(members[i].value)))
    ensures Spellable(SortedDoc(Decode(DObject(members))))
  {
    hide SortedKeys, MembersAt, DecodeMembers, Valid;
    var v := Decode(DObject(members));
    DecodeMembersDistinct(members);
    ObjectSorted(v);
    var sorted, keys := SortedDoc(v).members, SortedKeys(v.fields.Keys);
    hide Decode, SortedDoc;
    forall i | 0 <= i < |sorted| ensures SpellableMember(sorted[i]) {
      assert keys[i] in KeysOf(members);
      var j :| 0 <= j < |members| && members[j].key == keys[i];
    }
  }

  // ---------------------------------------------------------------------------
  // What is printed is valid UTF-8
  // ---------------------------------------------------------------------------

  lemma AsciiBefore(head: Text, tail: Text)
    requires (forall i :: 0 <= i < |head| ==> head[i] < 0x80) && Valid(tail)
    ensures Valid(head + tail)
  {
    hide Valid;
    AsciiIsValid(head);
    ValidConcat(head, tail);
  }

  lemma FirstIsValid(s: Text)
    requires s != [] && RuneLength(s) > 0
    ensures Valid(CanonicalFirst(s))
  {
    if s[0] < RUNE_SELF {
      AsciiIsValid(CanonicalFirst(s));
    } else {
      FirstRune(s);
      SizeOfValid(s);
      RuneIsValid(s[..RuneLength(s)]);
    }
  }

  lemma {:induction false} BodyIsValid(s: Text)
    requires Valid(s)
    ensures Valid(PrintBody(Canonical, s))
  {
    hide RuneLength, CanonicalFirst, DecodeRune;
    if s == [] {
      AsciiIsValid([QUOTE]);
    } else {
      SizeOfValid(s);
      FirstIsValid(s);
      BodyIsValid(s[RuneLength(s)..]);
      ValidConcat(CanonicalFirst(s), PrintBody(Canonical, s[RuneLength(s)..]));
    }
  }

  lemma {:induction false} PrintIsValid(d: Doc)
    requires Spellable(d)
    ensures Valid(Print(Canonical, d))
    decreases d, 1
  {
    hide Valid, PrintItems, PrintMembers, PrintMember, PrintBody;
    match d
    case DNumber(text) =>
      var n :| JsonNumbers.WellFormed(n) && JsonNumbers.Spell(n) == text;
      SpellIsAscii(n);
      AsciiIsValid(text);
    case DString(s) => BodyIsValid(s); AsciiBefore([QUOTE], PrintBody(Canonical, s));
    case DArray(items) =>
      ItemsAreValid(items);
      if items == [] {
        AsciiIsValid(Print(Canonical, d));
      } else {
        PrintIsValid(items[0]);
        ItemsAreValid(items[1..]);
        ValidConcat(Print(Canonical, items[0]), PrintItems(Canonical, items[1..]));
        AsciiBefore([LBRACKET], Print(Canonical, items[0]) + PrintItems(Canonical, items[1..]));
      }
    case DObject(members) =>
      if members == [] {
        AsciiIsValid(Print(Canonical, d));
      } else {
        MemberIsValid(members[0]);
        MembersAreValid(members[1..]);
        ValidConcat(PrintMember(Canonical, members[0]), PrintMembers(Canonical, members[1..]));
        AsciiBefore([LBRACE], PrintMember(Canonical, members[0]) + PrintMembers(Canonical, members[1..]));
      }
    case _ => AsciiIsValid(Print(Canonical, d));
  }

  lemma {:induction false} ItemsAreValid(items: seq<Doc>)
    requires forall i :: 0 <= i < |items| ==> Spellable(items[i])
    ensures Valid(PrintItems(Canonical, items))
    decreases items, 2
  {
    hide Valid, Print, Spellable;
    if items == [] {
      AsciiIsValid([RBRACKET]);
    } else {
      PrintIsValid(items[0]);
      ItemsAreValid(items[1..]);
      ValidConcat(Print(Canonical, items[0]), PrintItems(Canonical, items[1..]));
      AsciiBefore([COMMA], Print(Canonical, items[0]) + PrintItems(Canonical, items[1..]));
    }
  }

  lemma {:induction false} MemberIsValid(m: Member)
    requires SpellableMember(m)
    ensures Valid(PrintMember(Canonical, m))
    decreases m, 2
  {
    hide Valid, Print, PrintBody, Spellable;
    BodyIsValid(m.key);
    PrintIsValid(m.value);
    AsciiBefore([QUOTE], PrintBody(Canonical, m.key));
    AsciiBefore([COLON], Print(Canonical, m.value));
    ValidConcat(PrintString(Canonical, m.key), [COLON] + Print(Canonical, m.value));
  }

  lemma {:induction false} MembersAreValid(members: seq<Member>)
    requires forall i :: 0 <= i < |members| ==> SpellableMember(members[i])
    ensures Valid(PrintMembers(Canonical, members))
    decreases members, 3
  {
    hide Valid, PrintMember, SpellableMember;
    if members == [] {
      AsciiIsValid([RBRACE]);
    } else {
      MemberIsValid(members[0]);
      MembersAreValid(members[1..]);
      ValidConcat(PrintMember(Canonical, members[0]), PrintMembers(Canonical, members[1..]));
      AsciiBefore([COMMA], PrintMember(Canonical, members[0]) + PrintMembers(Canonical, members[1..]));
    }
  }

  // ---------------------------------------------------------------------------
  // The promises
  // ---------------------------------------------------------------------------

  ghost function Meaning(raw: Text): Value
    requires Accepted(raw).Some?
  {
    Decode(Accepted(raw).value)
  }

  ghost function CanonicalText(raw: Text): Text
    requires Accepted(raw).Some?
  {
    Print(Canonical, SortedDoc(Meaning(raw)))
  }

  /** Every value within the limits has a text that is accepted and means it. */
  lemma EveryValueHasText(v: Value)
    requires Canonicalizable(v, 0) && Weigh(Nodes, SortedDoc(v)) <= MAX_NODES
    requires |Print(Canonical, SortedDoc(v))| <= MAX_DOCUMENT_BYTES
    ensures var text := Print(Canonical, SortedDoc(v));
            Valid(text) && Accepted(text) == Some(SortedDoc(v)) && Meaning(text) == v && CanonicalText(text) == text
  {
    hide Valid, ParseDocument, Structured, Canonicalizable, Decode, SortedDoc, Print, Weigh, Spellable;
    SortedDocFits(v, 0);
    SortedDocMeans(v);
    PrintIsValid(SortedDoc(v));
    PrintStarts(Canonical, SortedDoc(v));
    PrintedDocumentReads(Canonical, SortedDoc(v));
  }

  /** Canonicalizing never makes a document longer and keeps its number of values. */
  lemma CanonicalTextNeverGrows(raw: Text)
    requires Accepted(raw).Some?
    ensures |CanonicalText(raw)| <= |raw|
    ensures Weigh(Nodes, SortedDoc(Meaning(raw))) == Weigh(Nodes, Accepted(raw).value)
  {
    hide Valid, ParseDocument, Structured, Canonicalizable, Decode, SortedDoc, Print, Weigh, Spellable;
    var d := Accepted(raw).value;
    DocumentShrinks(raw);
    SortingKeepsWeight(Bytes(Canonical), d, 0);
    SortingKeepsWeight(Nodes, d, 0);
    PrintedLength(Canonical, d);
    PrintedLength(Canonical, SortedDoc(Meaning(raw)));
  }

  /** Canonicalizing twice is canonicalizing once, and no field is lost. */
  lemma CanonicalizationIsIdempotent(raw: Text)
    requires Accepted(raw).Some?
    ensures var out := CanonicalText(raw);
            Accepted(out).Some? && CanonicalText(out) == out && Meaning(out) == Meaning(raw)
  {
    hide Decode, SortedDoc, Print, Structured, Canonicalizable, Valid, ParseDocument, Weigh;
    CanonicalTextNeverGrows(raw);
    EveryValueHasText(Meaning(raw));
  }

  /** Two accepted documents have the same canonical text exactly when they mean the same value. */
  lemma CanonicalTextDecidesMeaning(a: Text, b: Text)
    requires Accepted(a).Some? && Accepted(b).Some?
    ensures CanonicalText(a) == CanonicalText(b) <==> Meaning(a) == Meaning(b)
  {
    hide Accepted, Decode, SortedDoc, Print;
    CanonicalizationIsIdempotent(a);
    CanonicalizationIsIdempotent(b);
  }
}
