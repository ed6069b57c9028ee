/** The store-local cache of decoded manifests: a map and a recency list over the same entries. */
module ManifestCache {
  import opened Outcomes
  import opened Utf8
  import opened ManifestValues
  import opened CacheContents

  class Entry {
    const key: Key
    const canonical: Text
    const value: Node

    constructor (key: Key, canonical: Text, value: Node)
      ensures this.key == key && this.canonical == canonical && this.value == value
    {
      this.key, this.canonical, this.value := key, canonical, value;
    }
  }

  function Texts(entries: seq<Entry>): (r: seq<Text>)
    ensures |r| == |entries| && forall i :: 0 <= i < |r| ==> r[i] == entries[i].canonical
  {
    seq(|entries|, i requires 0 <= i < |entries| => entries[i].canonical)
  }

  /** Every entry is filed under its digest. */
  ghost predicate Filed(d: Decoder, recency: seq<Entry>) {
    forall i :: 0 <= i < |recency| ==> recency[i].key == d.digest(recency[i].canonical)
  }

  /** Map and list hold the same entries. */
  ghost predicate Agree(entries: map<Key, Entry>, recency: seq<Entry>) {
    && (forall k <- entries :: entries[k].key == k && entries[k] in recency)
    && (forall i :: 0 <= i < |recency| ==> recency[i].key in entries && entries[recency[i].key] == recency[i])
  }

  /** What the texts decode to. */
  ghost function Trees(d: Decoder, list: seq<Text>): (r: seq<Tree>)
    requires forall i :: 0 <= i < |list| ==> Exact(d, list[i]).Some?
    ensures |r| == |list| && forall i :: 0 <= i < |r| ==> Exact(d, list[i]) == Some(r[i])
  {
    seq(|list|, i requires 0 <= i < |list| => Exact(d, list[i]).value)
  }

  ghost predicate Stored(h: Heap, recency: seq<Entry>, trees: seq<Tree>)
    reads h.cells, h.arrays, h.tables
  {
    |recency| == |trees| && forall i :: 0 <= i < |recency| ==> Holds(h, recency[i].value, trees[i])
  }

  function Dropped(recency: seq<Entry>, at: nat): seq<Entry>
    requires at < |recency|
  {
    recency[..at] + recency[at + 1..]
  }

  lemma DroppedTexts(recency: seq<Entry>, at: nat)
    requires at < |recency|
    ensures Texts(Dropped(recency, at)) == Texts(recency)[..at] + Texts(recency)[at + 1..]
  {
  }

  lemma DroppedAt(recency: seq<Entry>, at: nat, i: nat)
    requires at < |recency| && i < |recency| - 1
    ensures Dropped(recency, at)[i] == recency[if i < at then i else i + 1]
  {
  }

  lemma KeysDiffer(d: Decoder, recency: seq<Entry>, i: nat, j: nat)
    requires Filed(d, recency) && Keyed(d, Texts(recency)) && i < |recency| && j < |recency| && i != j
    ensures recency[i].key != recency[j].key
  {
    assert d.digest(Texts(recency)[i]) != d.digest(Texts(recency)[j]);
  }

  lemma DroppedAgrees(d: Decoder, entries: map<Key, Entry>, recency: seq<Entry>, at: nat)
    requires Agree(entries, recency) && Filed(d, recency) && Keyed(d, Texts(recency)) && at < |recency|
    ensures Agree(entries - {recency[at].key}, Dropped(recency, at)) && Filed(d, Dropped(recency, at))
    ensures Keyed(d, Texts(Dropped(recency, at)))
  {
    hide Keyed, Dropped;
    var left, fewer := Dropped(recency, at), entries - {recency[at].key};
    DroppedTexts(recency, at);
    assert |left| == |Texts(left)| == |recency| - 1;
    forall i | 0 <= i < |left|
      ensures left[i].key == d.digest(left[i].canonical) && left[i].key in fewer && fewer[left[i].key] == left[i] {
      DroppedAt(recency, at, i);
      KeysDiffer(d, recency, if i < at then i else i + 1, at);
    }
    forall k <- fewer ensures fewer[k].key == k && fewer[k] in left {
      var i :| 0 <= i < |recency| && recency[i] == entries[k];
      DroppedAt(recency, at, if i < at then i else i - 1);
    }
    DroppedKeyed(d, Texts(recency), at);
  }

  lemma DroppedKeyed(d: Decoder, list: seq<Text>, at: nat)
    requires Keyed(d, list) && at < |list|
    ensures Keyed(d, list[..at] + list[at + 1..])
  {
    var left := list[..at] + list[at + 1..];
    forall i | 0 <= i < |left| ensures left[i] == list[if i < at then i else i + 1] {}
  }

  lemma DroppedBounded(d: Decoder, recency: seq<Entry>, at: nat)
    requires Bounded(d, Texts(recency)) && at < |recency|
    ensures Bounded(d, Texts(Dropped(recency, at)))
    ensures Total(Texts(Dropped(recency, at))) == Total(Texts(recency)) - |recency[at].canonical|
  {
    hide Exact, Total, Keyed;
    var list := Texts(recency);
    DroppedTexts(recency, at);
    TotalWithoutAt(list, at);
    DroppedKeyed(d, list, at);
  }

  lemma DroppedStored(h: Heap, recency: seq<Entry>, trees: seq<Tree>, at: nat)
    requires Stored(h, recency, trees) && at < |recency|
    ensures Stored(h, Dropped(recency, at), trees[..at] + trees[at + 1..])
  {
    hide Holds;
    var left, fewer := Dropped(recency, at), trees[..at] + trees[at + 1..];
    forall i | 0 <= i < |left|
      ensures left[i] == recency[if i < at then i else i + 1] && fewer[i] == trees[if i < at then i else i + 1] {}
  }

  lemma DroppedTrees(d: Decoder, list: seq<Text>, at: nat)
    requires at < |list| && forall i :: 0 <= i < |list| ==> Exact(d, list[i]).Some?
    ensures var fewer := list[..at] + list[at + 1..];
            (forall i :: 0 <= i < |fewer| ==> Exact(d, fewer[i]).Some?)
            && Trees(d, fewer) == Trees(d, list)[..at] + Trees(d, list)[at + 1..]
  {
    hide Exact;
    var fewer := list[..at] + list[at + 1..];
    forall i | 0 <= i < |fewer| ensures fewer[i] == list[if i < at then i else i + 1] {}
  }

  lemma {:induction false} SameSize(d: Decoder, entries: map<Key, Entry>, recency: seq<Entry>)
    requires Agree(entries, recency) && Filed(d, recency) && Keyed(d, Texts(recency))
    ensures |entries| == |recency|
    decreases |recency|
  {
    if recency == [] {
      assert entries.Keys == {};
    } else {
      var key := recency[0].key;
      DroppedAgrees(d, entries, recency, 0);
      SameSize(d, entries - {key}, Dropped(recency, 0));
      assert entries.Keys == (entries - {key}).Keys + {key};
    }
  }

  class Cache {
    const decoder: Decoder
    var entries: map<Key, Entry>
    var recency: seq<Entry>
    var bytes: nat
    var decodes: nat
    ghost var cells: set<Cell>
    ghost var arrays: set<array<Node>>
    ghost var tables: set<TableObject>

    /** Everything the cached values refer to. */
    ghost function Repr(): Heap
      reads this
    {
      Heap(cells, arrays, tables)
    }

    ghost predicate Valid()
      reads this, cells, arrays, tables
    {
      && Agree(entries, recency) && Filed(decoder, recency)
      && bytes == Total(Texts(recency)) && Bounded(decoder, Texts(recency))
      && Stored(Repr(), recency, Trees(decoder, Texts(recency)))
    }

    constructor (decoder: Decoder)
      ensures Valid() && recency == [] && decodes == 0 && this.decoder == decoder && Repr() == NO_HEAP
    {
      this.decoder := decoder;
      entries, recency, bytes, decodes := map[], [], 0, 0;
      cells, arrays, tables := {}, {}, {};
    }

    /** Takes one entry out of the map, the list and the byte count. */
    method Remove(at: nat)
      requires Valid() && at < |recency|
      modifies this
      ensures Valid() && recency == old(Dropped(recency, at)) && decodes == old(decodes) && Repr() == old(Repr())
    {
      hide Total, Stored, Agree, Filed, Keyed, Exact, Trees, Texts;
      var entry := recency[at];
      DroppedAgrees(decoder, entries, recency, at);
      DroppedBounded(decoder, recency, at);
      DroppedTexts(recency, at);
      DroppedTrees(decoder, Texts(recency), at);
      DroppedStored(Repr(), recency, Trees(decoder, Texts(recency)), at);
      entries := entries - {entry.key};
      bytes := bytes - |entry.canonical|;
      recency := Dropped(recency, at);
    }

    /** Drops the least recently used entries until one more text fits. */
    method Evict(extra: nat)
      requires Valid() && extra <= MAX_BYTES
      modifies this
      ensures Valid() && decodes == old(decodes) && Repr() == old(Repr())
      ensures recency <= old(recency) && Texts(recency) == Kept(old(Texts(recency)), extra)
    {
      hide Agree, Filed, Stored, Bounded, Total;
      SizeIsCount();
      while |entries| >= MAX_ENTRIES || bytes + extra > MAX_BYTES
        invariant Valid() && decodes == old(decodes) && Repr() == old(Repr()) && |entries| == |recency|
        invariant recency <= old(recency) && Kept(Texts(recency), extra) == Kept(old(Texts(recency)), extra)
        decreases |recency|
      {
        NeverEmpty(extra);
        ghost var texts := Texts(recency);
        Remove(|recency| - 1);
        assert Texts(recency) == texts[..|texts| - 1];
        SizeIsCount();
      }
    }

    lemma SizeIsCount()
      requires Valid()
      ensures |entries| == |recency|
    {
      SameSize(decoder, entries, recency);
    }

    lemma NeverEmpty(extra: nat)
      requires Valid() && extra <= MAX_BYTES && (|recency| >= MAX_ENTRIES || bytes + extra > MAX_BYTES)
      ensures recency != []
    {
    }

    /** A new entry in front of the others. */
    method Insert(raw: Text, value: Node, ghost t: Tree, ghost h: Heap)
      requires Valid() && Fits(Texts(recency), |raw|)
      requires forall i :: 0 <= i < |recency| ==> recency[i].key != decoder.digest(raw)
      requires Exact(decoder, raw) == Some(t) && Holds(h, value, t)
      modifies this
      ensures Valid() && Texts(recency) == [raw] + old(Texts(recency)) && decodes == old(decodes)
              && Repr() == Union(old(Repr()), h)
    {
      hide Exact, Holds, Agree, Filed, Bounded, Total, Trees, Stored;
      var entry := new Entry(decoder.digest(raw), raw, value);
      assert Texts([entry] + recency) == [raw] + Texts(recency);
      InFront(decoder, entries, recency, entry);
      BoundedInFront(decoder, recency, entry, t);
      StoredInFront(Repr(), h, recency, Trees(decoder, Texts(recency)), entry, t);
      cells, arrays, tables := cells + h.cells, arrays + h.arrays, tables + h.tables;
      entries := entries[entry.key := entry];
      recency := [entry] + recency;
      bytes := bytes + |raw|;
    }

    /** Where the entry of a digest is in the list. */
    method Find(key: Key) returns (at: nat, entry: Entry)
      requires Valid() && key in entries
      ensures at < |recency| && recency[at] == entry == entries[key]
      ensures decoder.digest(entry.canonical) == key == entry.key && Texts(recency)[at] == entry.canonical
    {
      hide Bounded, Exact, Total, Stored, Trees;
      entry := entries[key];
      at :| 0 <= at < |recency| && recency[at] == entry;
    }

    lemma Absent(key: Key, raw: Text)
      requires Valid() && key == decoder.digest(raw) && (key in entries ==> entries[key].canonical != raw)
      ensures raw !in Texts(recency)
      ensures key !in entries ==> forall i :: 0 <= i < |recency| ==> recency[i].key != key
    {
      hide Bounded, Exact, Total, Stored, Trees;
    }

    method MoveToFront(at: nat)
      requires Valid() && at < |recency|
      modifies this
      ensures Valid() && decodes == old(decodes) && Repr() == old(Repr()) && entries == old(entries)
      ensures Texts(recency) == After(decoder, old(Texts(recency)), old(recency[at].canonical))
      ensures recency != [] && recency[0] == old(recency[at])
    {
      hide Agree, Exact, Filed, Total, Stored, Trees, Without, Kept, Bounded;
      var entry := recency[at];
      FrontKeeps(at);
      recency := [entry] + Dropped(recency, at);
    }

    /** Moving an entry to the front loses nothing and changes no sum. */
    lemma FrontKeeps(at: nat)
      requires Valid() && at < |recency|
      ensures var moved := [recency[at]] + Dropped(recency, at);
              && Agree(entries, moved) && Filed(decoder, moved) && bytes == Total(Texts(moved))
              && Bounded(decoder, Texts(moved))
              && Stored(Repr(), moved, Trees(decoder, Texts(moved)))
              && Texts(moved) == After(decoder, Texts(recency), recency[at].canonical)
    {
      var entry := recency[at];
      var list, moved := Texts(recency), [entry] + Dropped(recency, at);
      DroppedAgrees(decoder, entries, recency, at);
      MovedAgrees(entries, recency, at);
      DroppedTexts(recency, at);
      WithoutAt(decoder, list, at);
      AfterKeepsBounds(decoder, list, entry.canonical);
      assert list[at] == entry.canonical;
      assert Texts(moved) == [entry.canonical] + Texts(Dropped(recency, at));
      hide Agree, Filed, Exact, Total, Bounded, After;
      SingleTotal(entry.canonical);
      TotalConcat([entry.canonical], Texts(Dropped(recency, at)));
      TotalWithoutAt(list, at);
      MovedStored(Repr(), recency, Trees(decoder, list), at);
      MovedTrees(decoder, list, at);
    }

    lemma FrontIsHeld()
      requires Valid() && recency != []
      ensures var tree := Exact(decoder, recency[0].canonical);
              tree.Some? && Holds(Repr(), recency[0].value, tree.value)
    {
      hide Holds, Exact;
      assert Texts(recency)[0] == recency[0].canonical;
    }

    /** A decoded text replaces the one with its digest and evicts from the back. */
    method Admit(raw: Text, value: Node, ghost t: Tree, ghost h: Heap)
      requires Valid() && raw !in Texts(recency) && |raw| <= MAX_BYTES && Exact(decoder, raw) == Some(t)
               && Holds(h, value, t)
      modifies this
      ensures Valid() && decodes == old(decodes) && Repr() == Union(old(Repr()), h)
      ensures Texts(recency) == [raw] + Kept(Without(decoder, old(Texts(recency)), decoder.digest(raw)), |raw|)
    {
      hide Agree, Exact, Holds, Filed, Total, Stored, Trees, Without, Kept, Bounded, Fits;
      var key := decoder.digest(raw);
      ghost var list := Texts(recency);
      if key in entries {
        var at, _ := Find(key);
        KeyedTexts();
        WithoutAt(decoder, list, at);
        DroppedTexts(recency, at);
        Remove(at);
      } else {
        Absent(key, raw);
        KeyedTexts();
        WithoutAbsent(decoder, list, key);
      }
      assert Texts(recency) == Without(decoder, list, key);
      OthersDiffer(list, key);
      ghost var others := recency;
      Evict(|raw|);
      EvictsOldestOnly(Texts(others), |raw|);
      Insert(raw, value, t, h);
    }

    lemma KeyedTexts()
      requires Valid()
      ensures Keyed(decoder, Texts(recency)) && Filed(decoder, recency)
    {
    }

    lemma OthersDiffer(list: seq<Text>, key: Key)
      requires Valid() && Texts(recency) == Without(decoder, list, key)
      ensures forall i :: 0 <= i < |recency| ==> recency[i].key != key
    {
      WithoutHasNone(decoder, list, key);
      forall i | 0 <= i < |recency| ensures recency[i].key != key { assert Texts(recency)[i] == recency[i].canonical; }
    }

    /**
     * Returns what the uncached decode returns, in containers that did not exist before, and moves the text to the
     * front; a hit does not decode.
     */
    method Decode(raw: Text) returns (value: Option<Node>, canonical: Text, ghost owned: Heap)
      requires Valid()
      modifies this
      ensures Valid() && Texts(recency) == After(decoder, old(Texts(recency)), raw)
      ensures value.Some? <==> Exact(decoder, raw).Some?
      ensures value.Some? ==> canonical == raw && Holds(owned, value.value, Exact(decoder, raw).value)
      ensures fresh(owned.cells) && fresh(owned.arrays) && fresh(owned.tables) && Disjoint(owned, Repr())
      ensures fresh(cells - old(cells)) && fresh(arrays - old(arrays)) && fresh(tables - old(tables))
      ensures decodes == if raw in old(Texts(recency)) then old(decodes) else old(decodes) + 1
    {
      hide Exact, Holds, Agree, Filed, Bounded, Total, Trees, Stored, Kept, Without, Fits;
      value, canonical, owned := None, [], NO_HEAP;
      var key := decoder.digest(raw);
      if key in entries {
        var at, entry := Find(key);
        if entry.canonical == raw {
          MoveToFront(at);
          FrontIsHeld();
          var copy;
          copy, owned := Clone(entry.value, Exact(decoder, raw).value, Repr());
          return Some(copy), entry.canonical, owned;
        }
      }
      Absent(key, raw);
      decodes := decodes + 1;
      var decoded := Exact(decoder, raw);
      if decoded.None? { return; }
      var built;
      ghost var part;
      built, part := Build(decoded.value);
      if |raw| <= MAX_BYTES {
        Admit(raw, built, decoded.value, part);
      }
      var copy;
      copy, owned := Clone(built, decoded.value, part);
      return Some(copy), raw, owned;
    }
  }

  lemma {:induction false} WithoutHasNone(d: Decoder, list: seq<Text>, key: Key)
    ensures forall i :: 0 <= i < |Without(d, list, key)| ==> d.digest(Without(d, list, key)[i]) != key
  {
    if list != [] { WithoutHasNone(d, list[1..], key); }
  }

  lemma MovedAgrees(entries: map<Key, Entry>, recency: seq<Entry>, at: nat)
    requires Agree(entries, recency) && at < |recency|
    ensures Agree(entries, [recency[at]] + Dropped(recency, at))
  {
    var moved := [recency[at]] + Dropped(recency, at);
    forall i | 0 <= i < |moved| ensures moved[i] == recency[if i == 0 then at else if i <= at then i - 1 else i] {}
    forall k <- entries ensures entries[k] in moved {
      var i :| 0 <= i < |recency| && recency[i] == entries[k];
      assert moved[if i == at then 0 else if i < at then i + 1 else i] == recency[i];
    }
  }

  lemma MovedStored(h: Heap, recency: seq<Entry>, trees: seq<Tree>, at: nat)
    requires Stored(h, recency, trees) && at < |recency|
    ensures Stored(h, [recency[at]] + Dropped(recency, at), [trees[at]] + (trees[..at] + trees[at + 1..]))
  {
    hide Holds;
    DroppedStored(h, recency, trees, at);
    var moved, ts := [recency[at]] + Dropped(recency, at), [trees[at]] + (trees[..at] + trees[at + 1..]);
    forall i | 0 <= i < |moved| ensures Holds(h, moved[i].value, ts[i]) {
      if i > 0 { assert moved[i] == Dropped(recency, at)[i - 1] && ts[i] == (trees[..at] + trees[at + 1..])[i - 1]; }
    }
  }

  lemma MovedTrees(d: Decoder, list: seq<Text>, at: nat)
    requires at < |list| && forall i :: 0 <= i < |list| ==> Exact(d, list[i]).Some?
    ensures var moved := [list[at]] + (list[..at] + list[at + 1..]);
            (forall i :: 0 <= i < |moved| ==> Exact(d, moved[i]).Some?)
            && Trees(d, moved) == [Trees(d, list)[at]] + (Trees(d, list)[..at] + Trees(d, list)[at + 1..])
  {
    hide Exact;
    var moved := [list[at]] + (list[..at] + list[at + 1..]);
    forall i | 0 <= i < |moved| ensures moved[i] == list[if i == 0 then at else if i <= at then i - 1 else i] {}
  }

  lemma InFront(d: Decoder, entries: map<Key, Entry>, recency: seq<Entry>, entry: Entry)
    requires forall i :: 0 <= i < |recency| ==> recency[i].key != entry.key
    requires Agree(entries, recency) && Filed(d, recency) && entry.key == d.digest(entry.canonical)
    ensures Agree(entries[entry.key := entry], [entry] + recency) && Filed(d, [entry] + recency)
  {
    var longer := [entry] + recency;
    forall i | 0 <= i < |longer| ensures longer[i] == if i == 0 then entry else recency[i - 1] {}
  }

  lemma BoundedInFront(d: Decoder, recency: seq<Entry>, entry: Entry, t: Tree)
    requires forall i :: 0 <= i < |recency| ==> recency[i].key != entry.key
    requires Filed(d, recency) && entry.key == d.digest(entry.canonical) && Exact(d, entry.canonical) == Some(t)
    requires Bounded(d, Texts(recency)) && Fits(Texts(recency), |entry.canonical|)
    ensures var list := Texts([entry] + recency);
            && Bounded(d, list) && Total(list) == |entry.canonical| + Total(Texts(recency))
            && Trees(d, list) == [t] + Trees(d, Texts(recency))
  {
    hide Exact, Total;
    var list := Texts([entry] + recency);
    assert list == [entry.canonical] + Texts(recency);
    SingleTotal(entry.canonical);
    TotalConcat([entry.canonical], Texts(recency));
    forall i | 0 <= i < |list| ensures list[i] == if i == 0 then entry.canonical else recency[i - 1].canonical {}
  }

  lemma SingleTotal(text: Text)
    ensures Total([text]) == |text|
  {
  }

  lemma StoredInFront(g: Heap, h: Heap, recency: seq<Entry>, trees: seq<Tree>, entry: Entry, t: Tree)
    requires Stored(g, recency, trees) && Holds(h, entry.value, t)
    ensures Stored(Union(g, h), [entry] + recency, [t] + trees)
  {
    hide Holds;
    var u, longer := Union(g, h), [entry] + recency;
    HoldsInLarger(h, u, entry.value, t);
    forall i | 0 <= i < |recency| ensures Holds(u, recency[i].value, trees[i]) {
      HoldsInLarger(g, u, recency[i].value, trees[i]);
    }
    forall i | 0 <= i < |longer| ensures longer[i] == if i == 0 then entry else recency[i - 1] {}
  }

  // ---------------------------------------------------------------------------
  // Callers
  // ---------------------------------------------------------------------------

  function AfterAll(d: Decoder, list: seq<Text>, requests: seq<Text>): seq<Text> {
    if requests == [] then list else After(d, AfterAll(d, list, requests[..|requests| - 1]), requests[|requests| - 1])
  }

  /** One call, read to the end. */
  method Ask(cache: Cache, raw: Text) returns (answer: Option<Tree>, ghost owned: Heap)
    requires cache.Valid()
    modifies cache
    ensures cache.Valid() && Texts(cache.recency) == After(cache.decoder, old(Texts(cache.recency)), raw)
    ensures answer == Exact(cache.decoder, raw)
    ensures fresh(owned.cells) && fresh(owned.arrays) && fresh(owned.tables) && Disjoint(owned, cache.Repr())
    ensures fresh(cache.cells - old(cache.cells)) && fresh(cache.arrays - old(cache.arrays))
            && fresh(cache.tables - old(cache.tables))
  {
    hide Exact, Holds, After, Agree, Filed, Bounded, Stored, Trees, Total;
    var value, canonical;
    value, canonical, owned := cache.Decode(raw);
    answer := None;
    if value.Some? {
      var tree := Observe(value.value, Exact(cache.decoder, raw).value, owned);
      answer := Some(tree);
    }
  }

  /** A caller overwrites what it was handed, in any way. */
  method Overwrite(cache: Cache, ghost given: Heap)
    requires cache.Valid() && Disjoint(given, cache.Repr())
    modifies given.cells, given.arrays, given.tables
    ensures cache.Valid()
  {
    hide Exact, Holds, Agree, Filed, Bounded, Stored, Trees, Total;
    modify given.cells, given.arrays, given.tables;
  }

  /**
   * Any caller: asks for any texts in any order, and between two calls overwrites everything it was ever handed in any
   * way. Every answer is still, followed through all its references, exactly what the uncached decode returns, and the
   * cache ends up as if nobody had touched a value.
   */
  method AnyCaller(cache: Cache, requests: seq<Text>) returns (answers: seq<Option<Tree>>)
    requires cache.Valid()
    modifies cache
    ensures cache.Valid() && Texts(cache.recency) == AfterAll(cache.decoder, old(Texts(cache.recency)), requests)
    ensures |answers| == |requests|
            && forall i :: 0 <= i < |requests| ==> answers[i] == Exact(cache.decoder, requests[i])
  {
    hide Exact, Holds, After, Agree, Filed, Bounded, Stored, Trees, Total;
    answers := [];
    ghost var given := NO_HEAP;
    for i := 0 to |requests|
      invariant cache.Valid()
                && Texts(cache.recency) == AfterAll(cache.decoder, old(Texts(cache.recency)), requests[..i])
      invariant |answers| == i && forall j :: 0 <= j < i ==> answers[j] == Exact(cache.decoder, requests[j])
      invariant fresh(given.cells) && fresh(given.arrays) && fresh(given.tables) && Disjoint(given, cache.Repr())
    {
      var answer;
      ghost var owned;
      answer, owned := Ask(cache, requests[i]);
      answers := answers + [answer];
      assert requests[..i + 1][..i] == requests[..i];
      given := Union(given, owned);
      Overwrite(cache, given);
    }
    assert requests[..|requests|] == requests;
  }
}
