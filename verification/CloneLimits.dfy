/** What the canonical clone accepts and charges, stated on the tree a value unfolds to. */
module CloneLimits {
  import opened Utf8
  import JsonNumbers
  import SafeMagnitude
  import opened JsonStrings
  import opened JsonSyntax
  import opened JsonValues
  import opened GoValues

  const MAX_NODES := 32768
  const MAX_BYTES := JsonNumbers.MAX_ENCODED_BYTES

  const ENCODED := Bytes(Html)

  const PROTO: Text := [0x5F, 0x5F, 0x70, 0x72, 0x6F, 0x74, 0x6F, 0x5F, 0x5F]
  const CONSTRUCTOR: Text := [0x63, 0x6F, 0x6E, 0x73, 0x74, 0x72, 0x75, 0x63, 0x74, 0x6F, 0x72]
  const PROTOTYPE: Text := [0x70, 0x72, 0x6F, 0x74, 0x6F, 0x74, 0x79, 0x70, 0x65]

  predicate PrototypeSensitive(key: Text) {
    key == PROTO || key == CONSTRUCTOR || key == PROTOTYPE
  }

  predicate SoundKey(key: Text) {
    Valid(key) && !PrototypeSensitive(key)
  }

  ghost predicate SoundScalar(s: Scalar) {
    match s
    case Float(inRange, _) => inRange
    case Number(text) =>
      exists n :: JsonNumbers.WellFormed(n) && JsonNumbers.Spell(n) == text
                  && SafeMagnitude.AbsoluteValue(n) <= JsonNumbers.MAX_SAFE as real
    case Str(s) => Valid(s)
    case Other => false
    case _ => true
  }

  ghost predicate Sound(t: Tree)
    decreases t
  {
    match t
    case Leaf(s) => SoundScalar(s)
    case Items(items) => forall i :: 0 <= i < |items| ==> Sound(items[i])
    case Fields(fields) => forall k <- fields :: SoundKey(k) && Sound(fields[k])
  }

  /** The number of values of a tree, or the length of its encoding. */
  ghost function Size(u: Unit, t: Tree): nat {
    Weigh(u, DocOf(t))
  }

  /** The value unfolds within the levels left, is sound, and fits into what is left of both budgets. */
  ghost predicate Accepted(h: Heap, v: Any, levels: nat, nodes: nat, bytes: nat)
    requires Closed(h) && Within(h, v)
    reads h.cells, h.tables
  {
    var t := Unfold(h, v, levels);
    t.Some? && Sound(t.value) && nodes + Size(Nodes, t.value) <= MAX_NODES
    && bytes + Size(ENCODED, t.value) <= MAX_BYTES
  }

  // ---------------------------------------------------------------------------
  // Growing lists
  // ---------------------------------------------------------------------------

  function Comma(u: Unit, n: nat): nat {
    if u.Bytes? && n > 0 then 1 else 0
  }

  lemma {:induction false} WeighItemsAppend(u: Unit, docs: seq<Doc>, d: Doc)
    ensures WeighItems(u, docs + [d]) == WeighItems(u, docs) + WeighItems(u, [d])
  {
    hide Weigh;
    if docs == [] {
      assert docs + [d] == [d];
    } else {
      assert (docs + [d])[1..] == docs[1..] + [d];
      WeighItemsAppend(u, docs[1..], d);
    }
  }

  /** One more item costs its size and, after the first, a comma. */
  lemma NextItem(u: Unit, items: seq<Tree>, t: Tree)
    ensures Size(u, Items(items + [t])) == Size(u, Items(items)) + Comma(u, |items|) + Size(u, t)
  {
    hide SortedDoc;
    var docs := SortedItems(ValuesOf(items));
    assert SortedItems(ValuesOf(items + [t])) == docs + [DocOf(t)];
    DocOfItems(items);
    DocOfItems(items + [t]);
    hide DocOf;
    WeighItemsAppend(u, docs, DocOf(t));
    assert WeighItems(u, [DocOf(t)]) == Weigh(u, DocOf(t)) + (if u.Nodes? then 0 else 1);
  }

  lemma DocOfItems(items: seq<Tree>)
    ensures DocOf(Items(items)) == DArray(SortedItems(ValuesOf(items)))
  {
  }

  lemma {:induction false} FewerItems(u: Unit, items: seq<Tree>, n: nat)
    requires n <= |items|
    ensures Size(u, Items(items[..n])) <= Size(u, Items(items))
    decreases |items| - n
  {
    hide Size;
    if n == |items| {
      assert items[..n] == items;
    } else {
      assert items[..n] + [items[n]] == items[..n + 1];
      NextItem(u, items[..n], items[n]);
      FewerItems(u, items, n + 1);
    }
  }

  lemma {:induction false} WeighMembersAppend(u: Unit, members: seq<Member>, m: Member)
    ensures WeighMembers(u, members + [m]) == WeighMembers(u, members) + WeighMember(u, m)
  {
    hide WeighMember;
    if members == [] {
      assert members + [m] == [m];
    } else {
      assert (members + [m])[1..] == members[1..] + [m];
      WeighMembersAppend(u, members[1..], m);
    }
  }

  /** What a key adds to the encoding: its string and the colon. */
  function KeySize(u: Unit, key: Text): nat {
    if u.Bytes? then |PrintString(u.style, key)| + 1 else 0
  }

  lemma NextMember(u: Unit, members: seq<Member>, m: Member)
    ensures Weigh(u, DObject(members + [m]))
            == Weigh(u, DObject(members)) + Comma(u, |members|) + KeySize(u, m.key) + Weigh(u, m.value)
  {
    hide PrintString;
    WeighMembersAppend(u, members, m);
  }

  /** Members of a tree's object, listed in any order. */
  ghost predicate Lists(members: seq<Member>, fields: map<Text, Tree>) {
    DistinctKeys(members)
    && forall i :: 0 <= i < |members| ==> members[i].key in fields && members[i].value == DocOf(fields[members[i].key])
  }

  lemma ListedBelow(u: Unit, members: seq<Member>, fields: map<Text, Tree>)
    requires Lists(members, fields)
    ensures Weigh(u, DObject(members)) <= Size(u, Fields(fields))
    ensures KeysOf(members) == fields.Keys ==> Weigh(u, DObject(members)) == Size(u, Fields(fields))
  {
    var v := ValueOf(Fields(fields));
    SortedMembers(v);
    SortedValues(v);
    var sorted := SortedDoc(v).members;
    assert KeysOf(sorted) == fields.Keys;
    hide SortedDoc, ValueOf;
    assert SameWeights(u, members, sorted);
    SubsetWeight(u, members, sorted);
    if KeysOf(members) == fields.Keys { PermutedWeight(u, members, sorted); }
    if members != [] { HasKey(members); }
    if sorted != [] { HasKey(sorted); }
    hide KeysOf;
    ObjectWeights(u, members);
    ObjectWeights(u, sorted);
  }

  lemma ObjectWeights(u: Unit, members: seq<Member>)
    ensures Weigh(u, DObject(members)) == (if u.Bytes? && members == [] then 2 else 1) + WeighMembers(u, members)
    ensures u.Bytes? && members != [] ==> WeighMembers(u, members) >= 2
    ensures members == [] ==> WeighMembers(u, members) == 0
  {
  }

  /** Each member of a sorted object is the document of its field. */
  lemma SortedValues(v: Value)
    requires v.VObject?
    ensures SortedDoc(v).DObject?
    ensures var members := SortedDoc(v).members;
            forall i :: 0 <= i < |members| ==>
                members[i].key in v.fields && members[i].value == SortedDoc(v.fields[members[i].key])
  {
    hide SortedKeys;
    SortedKeysAscend(v.fields.Keys);
  }

  // ---------------------------------------------------------------------------
  // The encoded length of strings
  // ---------------------------------------------------------------------------

  lemma {:induction false} PrintedIsEncoded(s: Text)
    ensures PrintBody(Html, s) == Escaped(s, true) + [QUOTE]
  {
    if s != [] {
      hide DecodeRune, EscapeFirst;
      PrintedIsEncoded(s[DecodeRune(s).1..]);
    }
  }

  lemma EncodedString(s: Text)
    ensures |PrintString(Html, s)| == |Encode(s, true)|
  {
    PrintedIsEncoded(s);
  }
}
