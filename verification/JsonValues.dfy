/** JSON values as Go's decoder builds them, their canonical documents, and what the two have in common. */
module JsonValues {
  import opened Outcomes
  import opened Decimals
  import opened Utf8
  import opened JsonSyntax
  import opened JsonRoundTrip
  import JsonNumbers
  import opened Ordering

  const MAX_DEPTH := 64

  /** What a document means: objects are maps, so neither member order nor repetition is visible. */
  datatype Value =
    | VNull
    | VBool(b: bool)
    | VNumber(text: Text)
    | VString(s: Text)
    | VArray(items: seq<Value>)
    | VObject(fields: map<Text, Value>)

  // ---------------------------------------------------------------------------
  // Byte-wise order of keys
  // ---------------------------------------------------------------------------

  function ByteCode(b: byte): int { b }

  predicate TextLess(a: Text, b: Text) {
    LexLess(ByteCode, a, b)
  }

  ghost predicate Ascending(keys: seq<Text>) {
    forall i, j :: 0 <= i < j < |keys| ==> TextLess(keys[i], keys[j])
  }

  predicate Least(keys: set<Text>, k: Text) {
    k in keys && forall j <- keys :: j == k || TextLess(k, j)
  }

  lemma LeastIsUnique(keys: set<Text>, a: Text, b: Text)
    requires Least(keys, a) && Least(keys, b)
    ensures a == b
  {
    if a != b {
      LexTransitive(ByteCode, a, b, a);
      LexIrreflexive(ByteCode, a);
    }
  }

  lemma {:induction false} LeastExists(keys: set<Text>) returns (k: Text)
    requires keys != {}
    ensures Least(keys, k)
  {
    var x :| x in keys;
    k := x;
    var rest := keys - {x};
    if rest == {} {
      assert keys == {x};
    } else {
      var y := LeastExists(rest);
      LexTotal(ByteCode, x, y);
      if TextLess(y, x) { k := y; }
      forall j <- keys ensures j == k || TextLess(k, j) {
        if j != x {
          assert j in rest;
          if j != y && k == x { LexTransitive(ByteCode, x, y, j); }
        }
      }
    }
  }

  lemma OneLeast(keys: set<Text>)
    requires keys != {}
    ensures exists k :: Least(keys, k)
    ensures forall a, b :: Least(keys, a) && Least(keys, b) ==> a == b
  {
    var k := LeastExists(keys);
    forall a, b | Least(keys, a) && Least(keys, b) ensures a == b { LeastIsUnique(keys, a, b); }
  }

  /** The keys of an object in increasing order. */
  function SortedKeys(keys: set<Text>): seq<Text> {
    if keys == {} then []
    else
      OneLeast(keys);
      var k :| k in keys && Least(keys, k);
      [k] + SortedKeys(keys - {k})
  }

  lemma {:induction false} SortedKeysAscend(keys: set<Text>)
    ensures Ascending(SortedKeys(keys)) && (set k | k in SortedKeys(keys)) == keys
  {
    if keys != {} {
      var sorted := SortedKeys(keys);
      var k := sorted[0];
      var rest := SortedKeys(keys - {k});
      SortedKeysAscend(keys - {k});
      hide SortedKeys, TextLess;
      assert sorted == [k] + rest;
      forall j | 0 < j < |sorted| ensures TextLess(k, sorted[j]) {
        assert sorted[j] == rest[j - 1] && rest[j - 1] in (set i | i in rest);
      }
      forall j <- keys ensures j in sorted {
        if j != k { assert j in keys - {k}; }
      }
      forall j <- sorted ensures j in keys {
        if j != k { assert j in (set i | i in rest); }
      }
    }
  }

  /** There is only one increasing enumeration of a set of keys. */
  lemma {:induction false} AscendingIsSorted(list: seq<Text>, keys: set<Text>)
    requires Ascending(list) && (set k | k in list) == keys
    ensures list == SortedKeys(keys)
  {
    if list == [] {
      assert keys == {};
    } else {
      assert list[0] in keys;
      var rest := keys - {list[0]};
      forall i | 1 <= i < |list| ensures list[i] != list[0] { LexIrreflexive(ByteCode, list[0]); }
      assert (set k | k in list[1..]) == rest;
      AscendingIsSorted(list[1..], rest);
      assert Least(keys, list[0]);
      LeastIsUnique(keys, list[0], SortedKeys(keys)[0]);
      assert list == [list[0]] + list[1..];
    }
  }

  // ---------------------------------------------------------------------------
  // Documents and values
  // ---------------------------------------------------------------------------

  /** The value a document stands for; the last of several members with one key wins. */
  function Decode(d: Doc): Value
    decreases d
  {
    match d
    case DNull => VNull
    case DBool(b) => VBool(b)
    case DNumber(text) => VNumber(text)
    case DString(s) => VString(s)
    case DArray(items) => VArray(DecodeItems(items))
    case DObject(members) => VObject(DecodeMembers(members))
  }

  function DecodeItems(items: seq<Doc>): (r: seq<Value>)
    ensures |r| == |items| && forall i :: 0 <= i < |r| ==> r[i] == Decode(items[i])
    decreases items
  {
    if items == [] then [] else [Decode(items[0])] + DecodeItems(items[1..])
  }

  function DecodeMembers(members: seq<Member>): map<Text, Value>
    decreases members
  {
    if members == [] then map[] else map[members[0].key := DecodeMember(members[0])] + DecodeMembers(members[1..])
  }

  function DecodeMember(m: Member): Value
    decreases m
  {
    Decode(m.value)
  }

  /** The document of a value with its keys in order, whose canonical print is the canonical text. */
  function SortedDoc(v: Value): Doc
    decreases v, 1, 0
  {
    match v
    case VNull => DNull
    case VBool(b) => DBool(b)
    case VNumber(text) => DNumber(text)
    case VString(s) => DString(s)
    case VArray(items) => DArray(SortedItems(items))
    case VObject(fields) =>
      SortedKeysAscend(fields.Keys);
      DObject(MembersAt(v, SortedKeys(fields.Keys)))
  }

  function SortedItems(items: seq<Value>): (r: seq<Doc>)
    ensures |r| == |items| && forall i :: 0 <= i < |r| ==> r[i] == SortedDoc(items[i])
    decreases items, 1, 0
  {
    if items == [] then [] else [SortedDoc(items[0])] + SortedItems(items[1..])
  }

  /** The members of an object at some of its keys, in the order of those keys. */
  function MembersAt(v: Value, keys: seq<Text>): (r: seq<Member>)
    requires v.VObject? && forall k <- keys :: k in v.fields
    ensures |r| == |keys|
            && forall i :: 0 <= i < |r| ==> keys[i] in v.fields && r[i] == Member(keys[i], SortedDoc(v.fields[keys[i]]))
    decreases v, 0, |keys|
  {
    if keys == [] then [] else [Member(keys[0], SortedDoc(v.fields[keys[0]]))] + MembersAt(v, keys[1..])
  }

  /** The canonical document of a value means that value. */
  lemma {:induction false} SortedDocMeans(v: Value)
    ensures Decode(SortedDoc(v)) == v
    decreases v
  {
    match v
    case VArray(items) =>
      forall i | 0 <= i < |items| ensures Decode(SortedDoc(items[i])) == items[i] { SortedDocMeans(items[i]); }
    case VObject(fields) =>
      forall k <- fields ensures Decode(SortedDoc(fields[k])) == fields[k] { SortedDocMeans(fields[k]); }
      ObjectMeans(v);
    case _ =>
  }

  lemma ObjectMeans(v: Value)
    requires v.VObject? && forall k <- v.fields :: Decode(SortedDoc(v.fields[k])) == v.fields[k]
    ensures Decode(SortedDoc(v)) == v
  {
    hide SortedKeys, DecodeMembers, MembersAt;
    var keys := SortedKeys(v.fields.Keys);
    SortedKeysAscend(v.fields.Keys);
    MembersMean(v, keys);
    var m := DecodeMembers(MembersAt(v, keys));
    forall k <- v.fields ensures k in m { assert k in (set j | j in keys); }
    assert m == v.fields;
  }

  lemma {:induction false} MembersMean(v: Value, keys: seq<Text>)
    requires v.VObject? && (forall k <- keys :: k in v.fields)
    requires forall k <- v.fields :: Decode(SortedDoc(v.fields[k])) == v.fields[k]
    ensures var m := DecodeMembers(MembersAt(v, keys));
            (forall k :: k in m <==> k in keys) && (forall k <- m :: k in v.fields && m[k] == v.fields[k])
    decreases keys
  {
    hide SortedDoc, Decode;
    if keys != [] {
      MembersMean(v, keys[1..]);
      assert MembersAt(v, keys)[1..] == MembersAt(v, keys[1..]);
    }
  }

  // ---------------------------------------------------------------------------
  // Limits
  // ---------------------------------------------------------------------------

  ghost predicate DistinctKeys(members: seq<Member>) {
    forall i, j :: 0 <= i < j < |members| ==> members[i].key != members[j].key
  }

  /** Nesting within the limit from a depth on, and no object with a key twice. */
  ghost predicate Structured(d: Doc, depth: nat)
    decreases d
  {
    && depth <= MAX_DEPTH
    && (d.DArray? ==> forall i :: 0 <= i < |d.items| ==> Structured(d.items[i], depth + 1))
    && (d.DObject? ==>
        DistinctKeys(d.members) && forall i :: 0 <= i < |d.members| ==> StructuredMember(d.members[i], depth + 1))
  }

  ghost predicate StructuredMember(m: Member, depth: nat)
    decreases m
  {
    Structured(m.value, depth)
  }

  /** 0, or an optional minus and digits of which the first is not 0. */
  predicate IntegerText(text: Text) {
    var digits := if text != [] && text[0] == JsonNumbers.MINUS then text[1..] else text;
    text == [ZERO] || (digits != [] && Digits(digits) && digits[0] != ZERO)
  }

  /** What has a canonical form: valid strings, integers only, nesting within the limit. */
  ghost predicate Canonicalizable(v: Value, depth: nat)
    decreases v
  {
    && depth <= MAX_DEPTH
    && match v
       case VNumber(text) => IntegerText(text)
       case VString(s) => Valid(s)
       case VArray(items) => forall i :: 0 <= i < |items| ==> Canonicalizable(items[i], depth + 1)
       case VObject(fields) => forall k <- fields :: Valid(k) && Canonicalizable(fields[k], depth + 1)
       case _ => true
  }

  lemma IntegerIsNumber(text: Text)
    requires IntegerText(text)
    ensures JsonNumbers.IsNumber(text)
  {
    var negative := text != [] && text[0] == JsonNumbers.MINUS;
    var n := JsonNumbers.Number(negative, if negative then text[1..] else text, None, None);
    assert JsonNumbers.WellFormed(n);
    assert JsonNumbers.Spell(n) == text;
  }

  /** The canonical document keeps to every limit the value keeps to. */
  lemma {:induction false} SortedDocFits(v: Value, depth: nat)
    requires Canonicalizable(v, depth)
    ensures Spellable(SortedDoc(v)) && Structured(SortedDoc(v), depth)
    decreases v
  {
    match v
    case VNumber(text) => IntegerIsNumber(text);
    case VArray(items) =>
      forall i | 0 <= i < |items| ensures Spellable(SortedDoc(items[i])) && Structured(SortedDoc(items[i]), depth + 1) {
        SortedDocFits(items[i], depth + 1);
      }
    case VObject(fields) =>
      forall k <- fields ensures Spellable(SortedDoc(fields[k])) && Structured(SortedDoc(fields[k]), depth + 1) {
        SortedDocFits(fields[k], depth + 1);
      }
      SortedObjectFits(v, depth);
    case _ =>
  }

  lemma SortedObjectFits(v: Value, depth: nat)
    requires v.VObject? && depth <= MAX_DEPTH && forall k <- v.fields :: Valid(k)
    requires forall k <- v.fields :: Spellable(SortedDoc(v.fields[k])) && Structured(SortedDoc(v.fields[k]), depth + 1)
    ensures Spellable(SortedDoc(v)) && Structured(SortedDoc(v), depth)
  {
    hide SortedKeys, MembersAt;
    var keys := SortedKeys(v.fields.Keys);
    SortedKeysAscend(v.fields.Keys);
    var members := MembersAt(v, keys);
    assert SortedDoc(v) == DObject(members);
    hide SortedDoc;
    forall i | 0 <= i < |members| ensures SpellableMember(members[i]) && StructuredMember(members[i], depth + 1) {
      assert keys[i] in (set j | j in keys);
    }
    forall i, j | 0 <= i < j < |members| ensures members[i].key != members[j].key { LexIrreflexive(ByteCode, keys[i]); }
  }

  // ---------------------------------------------------------------------------
  // Sizes
  // ---------------------------------------------------------------------------

  /** Ways to measure a document: the length of its print in a style, and its number of values. */
  datatype Unit = Bytes(style: Style) | Nodes

  function Weigh(u: Unit, d: Doc): nat
    decreases d
  {
    match d
    case DArray(items) =>
      if u.Nodes? then 1 + WeighItems(u, items) else if items == [] then 2 else 1 + WeighItems(u, items)
    case DObject(members) =>
      if u.Nodes? then 1 + WeighMembers(u, members) else if members == [] then 2 else 1 + WeighMembers(u, members)
    case _ => if u.Nodes? then 1 else |Print(u.style, d)|
  }

  /** In bytes every item comes with the comma or bracket after it. */
  function WeighItems(u: Unit, items: seq<Doc>): nat
    decreases items
  {
    if items == [] then 0 else Weigh(u, items[0]) + (if u.Nodes? then 0 else 1) + WeighItems(u, items[1..])
  }

  function WeighMember(u: Unit, m: Member): nat
    decreases m
  {
    Weigh(u, m.value) + (if u.Nodes? then 0 else |PrintString(u.style, m.key)| + 2)
  }

  function WeighMembers(u: Unit, members: seq<Member>): nat
    decreases members
  {
    if members == [] then 0 else WeighMember(u, members[0]) + WeighMembers(u, members[1..])
  }

  lemma {:induction false} PrintedLength(style: Style, d: Doc)
    ensures |Print(style, d)| == Weigh(Bytes(style), d)
    decreases d, 1
  {
    match d
    case DArray(items) => if items != [] { PrintedLength(style, items[0]); PrintedItems(style, items[1..]); }
    case DObject(members) => if members != [] { PrintedMember(style, members[0]); PrintedMembers(style, members[1..]); }
    case _ =>
  }

  lemma {:induction false} PrintedItems(style: Style, items: seq<Doc>)
    ensures |PrintItems(style, items)| == 1 + WeighItems(Bytes(style), items)
    decreases items, 2
  {
    hide Print, Weigh;
    if items != [] { PrintedLength(style, items[0]); PrintedItems(style, items[1..]); }
  }

  lemma {:induction false} PrintedMember(style: Style, m: Member)
    ensures |PrintMember(style, m)| + 1 == WeighMember(Bytes(style), m)
    decreases m, 2
  {
    hide Print, Weigh, PrintString;
    PrintedLength(style, m.value);
  }

  lemma {:induction false} PrintedMembers(style: Style, members: seq<Member>)
    ensures |PrintMembers(style, members)| == 1 + WeighMembers(Bytes(style), members)
    decreases members, 3
  {
    hide PrintMember, WeighMember;
    if members != [] { PrintedMember(style, members[0]); PrintedMembers(style, members[1..]); }
  }

  // ---------------------------------------------------------------------------
  // Sorting keys changes no size
  // ---------------------------------------------------------------------------

  function KeysOf(members: seq<Member>): set<Text> {
    set i | 0 <= i < |members| :: members[i].key
  }

  lemma {:induction false} WithoutMember(u: Unit, members: seq<Member>, at: nat)
    requires at < |members|
    ensures WeighMembers(u, members) == WeighMember(u, members[at]) + WeighMembers(u, members[..at] + members[at + 1..])
  {
    hide WeighMember;
    var rest := members[..at] + members[at + 1..];
    if at == 0 {
      assert rest == members[1..];
    } else {
      WithoutMember(u, members[1..], at - 1);
      assert rest[1..] == members[1..][..at - 1] + members[1..][at..];
    }
  }

  ghost predicate SameWeights(u: Unit, a: seq<Member>, b: seq<Member>) {
    forall i, j :: 0 <= i < |a| && 0 <= j < |b| && a[i].key == b[j].key ==> WeighMember(u, a[i]) == WeighMember(u, b[j])
  }

  lemma SameWeightsWithout(u: Unit, a: seq<Member>, b: seq<Member>, at: nat)
    requires a != [] && at < |b| && SameWeights(u, a, b)
    ensures SameWeights(u, a[1..], b[..at] + b[at + 1..])
  {
    hide WeighMember;
    var rest := b[..at] + b[at + 1..];
    assert forall j :: 0 <= j < |rest| ==> rest[j] == b[if j < at then j else j + 1];
  }

  /** Members of equal weight at equal keys: fewer keys weigh no more, in whatever order they come. */
  lemma {:induction false} SubsetWeight(u: Unit, a: seq<Member>, b: seq<Member>)
    requires DistinctKeys(a) && DistinctKeys(b) && KeysOf(a) <= KeysOf(b) && SameWeights(u, a, b)
    ensures WeighMembers(u, a) <= WeighMembers(u, b)
  {
    hide WeighMember, DistinctKeys;
    if a != [] {
      HasKey(a);
      var at :| 0 <= at < |b| && b[at].key == a[0].key;
      WithoutMember(u, b, at);
      SameWeightsWithout(u, a, b, at);
      KeysWithout(a, 0);
      KeysWithout(b, at);
      hide KeysOf;
      assert WeighMember(u, a[0]) == WeighMember(u, b[at]);
      assert a[..0] + a[0 + 1..] == a[1..];
      SubsetWeight(u, a[1..], b[..at] + b[at + 1..]);
    }
  }

  /** The order of the keys does not matter. */
  lemma PermutedWeight(u: Unit, a: seq<Member>, b: seq<Member>)
    requires DistinctKeys(a) && DistinctKeys(b) && KeysOf(a) == KeysOf(b) && SameWeights(u, a, b)
    ensures WeighMembers(u, a) == WeighMembers(u, b)
  {
    SubsetWeight(u, a, b);
    SubsetWeight(u, b, a);
  }

  lemma HasKey(members: seq<Member>)
    requires members != []
    ensures members[0].key in KeysOf(members)
  {
  }

  lemma KeysWithout(members: seq<Member>, at: nat)
    requires DistinctKeys(members) && at < |members|
    ensures var rest := members[..at] + members[at + 1..];
            DistinctKeys(rest) && KeysOf(rest) == KeysOf(members) - {members[at].key}
  {
    var rest := members[..at] + members[at + 1..];
    forall i | 0 <= i < |rest| ensures rest[i] == members[if i < at then i else i + 1] {}
    forall k <- KeysOf(members) - {members[at].key} ensures k in KeysOf(rest) {
      var i :| 0 <= i < |members| && members[i].key == k;
      assert rest[if i < at then i else i - 1].key == k;
    }
  }

  lemma {:induction false} DecodeMembersDistinct(members: seq<Member>)
    requires DistinctKeys(members)
    ensures var m := DecodeMembers(members);
            m.Keys == KeysOf(members)
            && forall i :: 0 <= i < |members| ==> members[i].key in m && m[members[i].key] == Decode(members[i].value)
  {
    hide Decode, KeysOf;
    if members == [] {
      assert KeysOf(members) == {} by { FirstKey(members); }
    } else {
      var rest := members[1..];
      DecodeMembersDistinct(rest);
      FirstKey(members);
      var m, m' := DecodeMembers(members), DecodeMembers(rest);
      assert m == map[members[0].key := DecodeMember(members[0])] + m';
      hide DecodeMembers;
      forall i | 0 <= i < |members| ensures members[i].key in m && m[members[i].key] == Decode(members[i].value) {
        if i > 0 { assert members[i] == rest[i - 1]; }
      }
    }
  }

  lemma FirstKey(members: seq<Member>)
    ensures KeysOf(members) == if members == [] then {} else {members[0].key} + KeysOf(members[1..])
    ensures members != [] && DistinctKeys(members) ==> members[0].key !in KeysOf(members[1..])
  {
    if members != [] {
      var rest := members[1..];
      forall i | 0 < i < |members| ensures members[i].key in KeysOf(rest) { assert rest[i - 1].key in KeysOf(rest); }
      forall i | 0 <= i < |rest| ensures rest[i].key in KeysOf(members) { assert members[i + 1] == rest[i]; }
    }
  }

  /** Reading a structured document and sorting its keys keeps its length and its number of values. */
  lemma {:induction false} SortingKeepsWeight(u: Unit, d: Doc, depth: nat)
    requires Structured(d, depth)
    ensures Weigh(u, SortedDoc(Decode(d))) == Weigh(u, d)
    decreases d, 1
  {
    match d
    case DArray(items) =>
      forall i | 0 <= i < |items| ensures Weigh(u, SortedDoc(Decode(items[i]))) == Weigh(u, items[i]) {
        SortingKeepsWeight(u, items[i], depth + 1);
      }
      ItemsKeepWeight(u, items, SortedItems(DecodeItems(items)));
    case DObject(members) =>
      forall i | 0 <= i < |members|
        ensures Weigh(u, SortedDoc(Decode(members[i].value))) == Weigh(u, members[i].value) {
        MemberKeepsWeight(u, members[i], depth + 1);
      }
      ObjectKeepsWeight(u, members);
    case _ =>
  }

  lemma {:induction false} MemberKeepsWeight(u: Unit, m: Member, depth: nat)
    requires StructuredMember(m, depth)
    ensures Weigh(u, SortedDoc(Decode(m.value))) == Weigh(u, m.value)
    decreases m, 2
  {
    SortingKeepsWeight(u, m.value, depth);
  }

  lemma {:induction false} ItemsKeepWeight(u: Unit, a: seq<Doc>, b: seq<Doc>)
    requires |a| == |b| && forall i :: 0 <= i < |a| ==> Weigh(u, a[i]) == Weigh(u, b[i])
    ensures WeighItems(u, a) == WeighItems(u, b)
  {
    hide Weigh;
    if a != [] { ItemsKeepWeight(u, a[1..], b[1..]); }
  }

  lemma ObjectKeepsWeight(u: Unit, members: seq<Member>)
    requires DistinctKeys(members)
    requires forall i :: 0 <= i < |members| ==>
               Weigh(u, SortedDoc(Decode(members[i].value))) == Weigh(u, members[i].value)
    ensures Weigh(u, SortedDoc(Decode(DObject(members)))) == Weigh(u, DObject(members))
  {
    hide SortedKeys, MembersAt, DecodeMembers, WeighMembers, KeysOf;
    var v := Decode(DObject(members));
    var keys := SortedKeys(v.fields.Keys);
    SortedKeysAscend(v.fields.Keys);
    var sorted := MembersAt(v, keys);
    assert SortedDoc(v) == DObject(sorted);
    DecodeMembersDistinct(members);
    assert DistinctKeys(sorted) && KeysOf(sorted) == KeysOf(members) by { SortedMembers(v); }
    PermutedWeight(u, members, sorted);
    assert sorted == [] <==> members == [] by {
      FirstKey(members);
      FirstKey(sorted);
    }
  }

  lemma SortedMembers(v: Value)
    requires v.VObject?
    ensures SortedDoc(v).DObject? && DistinctKeys(SortedDoc(v).members) && KeysOf(SortedDoc(v).members) == v.fields.Keys
  {
    hide SortedKeys, KeysOf;
    var keys := SortedKeys(v.fields.Keys);
    SortedKeysAscend(v.fields.Keys);
    var members := MembersAt(v, keys);
    assert SortedDoc(v) == DObject(members);
    hide SortedDoc, MembersAt;
    KeysListed(keys, members, v.fields.Keys);
    forall i, j | 0 <= i < j < |members| ensures members[i].key != members[j].key { LexIrreflexive(ByteCode, keys[i]); }
  }

  lemma KeysListed(keys: seq<Text>, members: seq<Member>, all: set<Text>)
    requires |keys| == |members| && (forall i :: 0 <= i < |keys| ==> members[i].key == keys[i])
    requires (set k | k in keys) == all
    ensures KeysOf(members) == all
  {
    forall k <- all ensures k in KeysOf(members) {
      assert k in (set j | j in keys);
      var i :| 0 <= i < |keys| && keys[i] == k;
      assert members[i].key == k;
    }
    forall i | 0 <= i < |members| ensures members[i].key in all { assert keys[i] in (set j | j in keys); }
  }
}
