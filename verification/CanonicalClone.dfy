/** Validating and cloning a value graph under depth, node and byte budgets. */
module CanonicalClone {
  import opened Outcomes
  import opened Utf8
  import SafeMagnitude
  import JsonNumbers
  import opened JsonStrings
  import opened JsonSyntax
  import opened JsonValues
  import opened GoValues
  import opened CloneLimits

  const LEVELS := MAX_DEPTH + 1

  /** The containers on the way down, which are the ones being visited. */
  ghost function Visited(path: seq<Any>): set<Any> {
    set i | 0 <= i < |path| :: path[i]
  }

  lemma MoreVisited(path: seq<Any>, v: Any)
    ensures Visited(path + [v]) == Visited(path) + {v}
  {
    var longer := path + [v];
    forall i | 0 <= i < |path| ensures longer[i] == path[i] && path[i] in Visited(longer) {}
    assert longer[|path|] == v && v in Visited(longer);
  }

  /** A container found among those being visited is its own descendant. */
  lemma RevisitNeverUnfolds(h: Heap, path: seq<Any>, v: Any, levels: nat)
    requires Closed(h) && Chain(h, path + [v]) && v in Visited(path)
    ensures Within(h, v) && Unfold(h, v, levels).None?
  {
    var i :| 0 <= i < |path| && path[i] == v;
    var loop := path + [v];
    assert loop[|path|] == v && loop[i] == v;
    CycleNeverUnfolds(h, loop, i, levels);
  }

  lemma ChainGrows(h: Heap, path: seq<Any>, v: Any, c: Any)
    requires Closed(h) && Chain(h, path + [v]) && Within(h, v) && Within(h, c) && Child(h, v, c)
    ensures Chain(h, path + [v] + [c])
  {
    var longer := path + [v];
    forall i | 0 <= i < |longer| ensures Child(h, longer[i], (longer + [c])[i + 1]) {
      if i < |longer| - 1 { assert Child(h, longer[i], longer[i + 1]); }
    }
  }

  // ---------------------------------------------------------------------------
  // Refusing a part is refusing the whole
  // ---------------------------------------------------------------------------

  /** The trees of the first items of a slice. */
  ghost predicate ItemsDone(h: Heap, v: Any, levels: nat, done: seq<Tree>)
    requires Closed(h) && Within(h, v) && v.Slice? && levels > 0
    reads h.cells, h.tables
  {
    |done| <= v.length
    && forall i :: 0 <= i < |done| ==> Unfold(h, ItemsOf(v)[i], levels - 1) == Some(done[i]) && Sound(done[i])
  }

  lemma UnfoldSlice(h: Heap, v: Any, levels: nat, done: seq<Tree>)
    requires Closed(h) && Within(h, v) && v.Slice? && levels > 0 && ItemsDone(h, v, levels, done)
    ensures Unfold(h, v, levels).Some? ==>
              var t := Unfold(h, v, levels).value;
              t.Items? && |t.items| == v.length && t.items[..|done|] == done
              && forall i :: 0 <= i < v.length ==> Unfold(h, ItemsOf(v)[i], levels - 1) == Some(t.items[i])
    ensures |done| == v.length ==> Unfold(h, v, levels) == Some(Items(done))
  {
    var all := UnfoldAll(h, ItemsOf(v), levels - 1);
    if |done| == v.length { assert all.Some? && all.value == done; }
  }

  /** An item that does not fit, behind the comma it needs, means the slice does not fit. */
  lemma ItemRefused(h: Heap, v: Any, levels: nat, done: seq<Tree>, nodes: nat, bytes: nat)
    requires Closed(h) && Within(h, v) && v.Slice? && levels > 0 && ItemsDone(h, v, levels, done) && |done| < v.length
    requires Within(h, ItemsOf(v)[|done|])
    requires !Accepted(h, ItemsOf(v)[|done|], levels - 1, nodes + Size(Nodes, Items(done)),
                       bytes + Size(ENCODED, Items(done)) + Comma(ENCODED, |done|))
    ensures !Accepted(h, v, levels, nodes, bytes)
  {
    UnfoldSlice(h, v, levels, done);
    hide Size, Unfold;
    if Unfold(h, v, levels).Some? {
      var items, n := Unfold(h, v, levels).value.items, |done|;
      assert items[..n] + [items[n]] == items[..n + 1];
      NextItem(Nodes, done, items[n]);
      NextItem(ENCODED, done, items[n]);
      FewerItems(Nodes, items, n + 1);
      FewerItems(ENCODED, items, n + 1);
    }
  }

  /** The trees of some fields of a map, with their members in the order they were reached. */
  ghost predicate FieldsDone(h: Heap, v: Any, levels: nat, done: map<Text, Tree>, members: seq<Member>)
    requires Closed(h) && Within(h, v) && v.Map? && levels > 0
    reads h.cells, h.tables
  {
    && done.Keys <= v.table.fields.Keys
    && (forall k <- done :: Unfold(h, v.table.fields[k], levels - 1) == Some(done[k]) && Sound(done[k]) && SoundKey(k))
    && Lists(members, done) && KeysOf(members) == done.Keys
  }

  lemma UnfoldMap(h: Heap, v: Any, levels: nat, done: map<Text, Tree>, members: seq<Member>)
    requires Closed(h) && Within(h, v) && v.Map? && levels > 0 && FieldsDone(h, v, levels, done, members)
    ensures Unfold(h, v, levels).Some? ==>
              var t := Unfold(h, v, levels).value;
              t.Fields? && t.fields.Keys == v.table.fields.Keys && Lists(members, t.fields)
              && forall k <- t.fields :: Unfold(h, v.table.fields[k], levels - 1) == Some(t.fields[k])
    ensures done.Keys == v.table.fields.Keys ==> Unfold(h, v, levels) == Some(Fields(done))
  {
    hide DocOf, KeysOf;
    if done.Keys == v.table.fields.Keys {
      assert Unfold(h, v, levels).Some?;
      assert Unfold(h, v, levels).value.fields == done;
    }
  }

  lemma MoreListed(members: seq<Member>, fields: map<Text, Tree>, key: Text)
    requires Lists(members, fields) && key in fields && key !in KeysOf(members)
    ensures Lists(members + [Member(key, DocOf(fields[key]))], fields)
    ensures KeysOf(members + [Member(key, DocOf(fields[key]))]) == KeysOf(members) + {key}
  {
    hide DocOf;
    var m := Member(key, DocOf(fields[key]));
    var longer := members + [m];
    forall i | 0 <= i < |members|
      ensures longer[i] == members[i] && members[i].key in KeysOf(members) && members[i].key in KeysOf(longer) {
      assert longer[i].key in KeysOf(longer);
    }
    assert longer[|members|].key in KeysOf(longer);
  }

  /** Every field not yet listed still has to be paid for. */
  lemma FieldOutstanding(u: Unit, members: seq<Member>, fields: map<Text, Tree>, key: Text)
    requires Lists(members, fields) && key in fields && key !in KeysOf(members)
    ensures Weigh(u, DObject(members)) + Comma(u, |members|) + KeySize(u, key)
            + Size(u, fields[key]) <= Size(u, Fields(fields))
  {
    var m := Member(key, DocOf(fields[key]));
    MoreListed(members, fields, key);
    hide DocOf, Weigh, KeySize, Lists, KeysOf, Comma;
    NextMember(u, members, m);
    ListedBelow(u, members + [m], fields);
  }

  lemma FieldRefused(h: Heap, v: Any, levels: nat, done: map<Text, Tree>, members: seq<Member>, key: Text, nodes: nat,
                     bytes: nat)
    requires Closed(h) && Within(h, v) && v.Map? && levels > 0 && FieldsDone(h, v, levels, done, members)
    requires key in v.table.fields && key !in done && Within(h, v.table.fields[key])
    requires !SoundKey(key) || !Accepted(h, v.table.fields[key], levels - 1, nodes + Weigh(Nodes, DObject(members)),
                         bytes + Weigh(ENCODED, DObject(members)) + Comma(ENCODED, |members|) + KeySize(ENCODED, key))
    ensures !Accepted(h, v, levels, nodes, bytes)
  {
    hide Unfold, Weigh, KeySize, Comma, DocOf, KeysOf, Size, Lists, SoundKey;
    UnfoldMap(h, v, levels, done, members);
    if Unfold(h, v, levels).Some? {
      var fields := Unfold(h, v, levels).value.fields;
      FieldOutstanding(Nodes, members, fields, key);
      FieldOutstanding(ENCODED, members, fields, key);
    }
  }

  // ---------------------------------------------------------------------------
  // Owned copies
  // ---------------------------------------------------------------------------

  /** A part of the heap that holds everything a value refers to, and shows it as a tree. */
  ghost predicate Owns(g: Heap, v: Any, levels: nat, t: Tree)
    reads g.cells, g.tables
  {
    Closed(g) && Within(g, v) && Unfold(g, v, levels) == Some(t)
  }

  lemma OwnsInUnion(g: Heap, h: Heap, v: Any, levels: nat, t: Tree)
    requires Closed(g) && Closed(h)
    ensures Closed(Union(g, h))
    ensures Owns(g, v, levels, t) ==> Owns(Union(g, h), v, levels, t)
    ensures Owns(h, v, levels, t) ==> Owns(Union(g, h), v, levels, t)
  {
    var u := Union(g, h);
    ClosedUnion(g, h);
    if Owns(g, v, levels, t) { UnfoldInLarger(g, u, v, levels); }
    if Owns(h, v, levels, t) { UnfoldInLarger(h, u, v, levels); }
  }

  lemma ClosedUnion(g: Heap, h: Heap)
    requires Closed(g) && Closed(h)
    ensures Closed(Union(g, h))
  {
    var u := Union(g, h);
    assert forall v :: Within(g, v) || Within(h, v) ==> Within(u, v);
  }

  ghost predicate OwnsItems(g: Heap, vs: seq<Any>, levels: nat, ts: seq<Tree>)
    reads g.cells, g.tables
  {
    Closed(g) && |vs| == |ts| && forall i :: 0 <= i < |vs| ==> Owns(g, vs[i], levels, ts[i])
  }

  lemma MoreItemsOwned(g: Heap, vs: seq<Any>, ts: seq<Tree>, h: Heap, v: Any, t: Tree, levels: nat)
    requires OwnsItems(g, vs, levels, ts) && Owns(h, v, levels, t)
    ensures OwnsItems(Union(g, h), vs + [v], levels, ts + [t])
  {
    hide Closed, Unfold, Within;
    OwnsInUnion(g, h, v, levels, t);
    forall i | 0 <= i < |vs| ensures Owns(Union(g, h), (vs + [v])[i], levels, (ts + [t])[i]) {
      OwnsInUnion(g, h, vs[i], levels, ts[i]);
    }
  }

  lemma SliceOwned(g: Heap, cells: array<Any>, levels: nat, ts: seq<Tree>)
    requires OwnsItems(g, cells[..], levels, ts)
    ensures Owns(Heap(g.cells + {cells}, g.tables), Slice(cells, 0, cells.Length, cells.Length), levels + 1, Items(ts))
  {
    var u, v := Heap(g.cells + {cells}, g.tables), Slice(cells, 0, cells.Length, cells.Length);
    assert ItemsOf(v) == cells[..];
    assert Closed(u) by {
      forall i | 0 <= i < cells.Length ensures Within(u, cells[i]) { assert Owns(g, cells[..][i], levels, ts[i]); }
    }
    forall i | 0 <= i < cells.Length ensures Unfold(u, cells[i], levels) == Some(ts[i]) {
      assert Owns(g, cells[..][i], levels, ts[i]);
      UnfoldInLarger(g, u, cells[i], levels);
    }
    var all := UnfoldAll(u, ItemsOf(v), levels);
    assert all.Some? && all.value == ts;
  }

  ghost predicate OwnsFields(g: Heap, fields: map<Text, Any>, levels: nat, ts: map<Text, Tree>)
    reads g.cells, g.tables
  {
    Closed(g) && fields.Keys == ts.Keys && forall k <- fields :: Owns(g, fields[k], levels, ts[k])
  }

  lemma MoreFieldsOwned(g: Heap, fields: map<Text, Any>, ts: map<Text, Tree>, h: Heap, key: Text, v: Any, t: Tree,
                        levels: nat)
    requires OwnsFields(g, fields, levels, ts) && Owns(h, v, levels, t)
    ensures OwnsFields(Union(g, h), fields[key := v], levels, ts[key := t])
  {
    hide Closed, Unfold, Within;
    OwnsInUnion(g, h, v, levels, t);
    var more, trees := fields[key := v], ts[key := t];
    forall k <- more ensures Owns(Union(g, h), more[k], levels, trees[k]) {
      if k != key { OwnsInUnion(g, h, fields[k], levels, ts[k]); }
    }
  }

  lemma MapOwned(g: Heap, table: MapObject, levels: nat, ts: map<Text, Tree>)
    requires OwnsFields(g, table.fields, levels, ts)
    ensures Owns(Heap(g.cells, g.tables + {table}), Map(table), levels + 1, Fields(ts))
  {
    var u, v := Heap(g.cells, g.tables + {table}), Map(table);
    assert Closed(u) by {
      forall k <- table.fields ensures Within(u, table.fields[k]) { assert Owns(g, table.fields[k], levels, ts[k]); }
    }
    forall k <- table.fields ensures Unfold(u, table.fields[k], levels) == Some(ts[k]) {
      assert Owns(g, table.fields[k], levels, ts[k]);
      UnfoldInLarger(g, u, table.fields[k], levels);
    }
    var all := Unfold(u, v, levels + 1);
    assert all.Some?;
    assert all.value.fields == ts;
  }

  // ---------------------------------------------------------------------------
  // The walk
  // ---------------------------------------------------------------------------

  class State {
    var nodes: nat
    var bytes: nat
    var active: set<Any>

    constructor ()
      ensures nodes == 0 && bytes == 0 && active == {}
    {
      nodes, bytes, active := 0, 0, {};
    }

    ghost predicate Ready(v: Any, depth: nat, h: Heap, path: seq<Any>)
      reads this, h.cells, h.tables
    {
      && Closed(h) && Within(h, v) && depth == |path| <= LEVELS
      && Chain(h, path + [v]) && active == Visited(path)
      && nodes <= MAX_NODES && bytes <= MAX_BYTES
    }

    /** In the middle of a container: it is the last one being visited. */
    ghost predicate Walking(v: Any, depth: nat, h: Heap, path: seq<Any>)
      reads this, h.cells, h.tables
    {
      && Closed(h) && Within(h, v) && depth == |path| <= MAX_DEPTH
      && Chain(h, path + [v]) && active == Visited(path + [v])
      && nodes <= MAX_NODES && bytes <= MAX_BYTES
    }

    method AddBytes(count: nat) returns (ok: bool)
      requires bytes <= MAX_BYTES
      modifies this`bytes
      ensures ok <==> old(bytes) + count <= MAX_BYTES
      ensures bytes == if ok then old(bytes) + count else old(bytes)
    {
      if count > MAX_BYTES - bytes { return false; }
      bytes := bytes + count;
      return true;
    }

    method CloneScalar(s: Scalar) returns (ok: bool)
      requires bytes <= MAX_BYTES
      modifies this`bytes
      ensures ok <==> SoundScalar(s) && old(bytes) + Size(ENCODED, Leaf(s)) <= MAX_BYTES
      ensures ok ==> bytes == old(bytes) + Size(ENCODED, Leaf(s))
    {
      hide PrintString, Encode, Valid, JsonNumbers.Spell, JsonNumbers.WellFormed;
      match s
      case Nil => ok := AddBytes(4);
      case Bool(b) => ok := AddBytes(if b then 4 else 5);
      case Float(inRange, text) =>
        if !inRange { return false; }
        ok := AddBytes(|text|);
      case Number(text) =>
        var number := JsonNumbers.ValidJSONNumber(text);
        if !number { return false; }
        var exceeds := SafeMagnitude.NumberExceedsSafeMagnitude(text);
        if exceeds { return false; }
        ok := AddBytes(|text|);
      case Str(text) =>
        if !Valid(text) { return false; }
        EncodedString(text);
        var length := JsonStringEncodedLength(text);
        ok := AddBytes(length);
      case NilSlice => ok := AddBytes(4);
      case NilMap => ok := AddBytes(4);
      case Other => ok := false;
    }

    /**
     * Accepts exactly the values that unfold within the levels left, are sound and fit both budgets, charges exactly
     * their number of values and encoded length, and returns either the value itself or an equal value that owns
     * every container it refers to.
     */
    method Clone(v: Any, depth: nat, copy: bool, ghost h: Heap, ghost path: seq<Any>)
      returns (ok: bool, out: Any, ghost owned: Heap)
      requires Ready(v, depth, h, path)
      modifies this
      ensures Closed(h) && Within(h, v)
      ensures ok <==> Accepted(h, v, LEVELS - depth, old(nodes), old(bytes))
      ensures ok ==> var t := Unfold(h, v, LEVELS - depth).value;
                     nodes == old(nodes) + Size(Nodes, t) && bytes == old(bytes) + Size(ENCODED, t)
                     && active == old(active)
      ensures ok ==> fresh(owned.cells) && fresh(owned.tables)
      ensures ok ==> if copy then Owns(owned, out, LEVELS - depth, Unfold(h, v, LEVELS - depth).value) else out == v
      decreases LEVELS - depth, 1
    {
      hide Chain, Closed, Sound, Weigh, Visited;
      out, owned := v, Heap({}, {});
      if depth > MAX_DEPTH { return false, out, owned; }
      assert Unfold(h, v, LEVELS - depth).Some? ==> Size(Nodes, Unfold(h, v, LEVELS - depth).value) >= 1 by {
        AtLeastOne(Unfold(h, v, LEVELS - depth));
      }
      nodes := nodes + 1;
      if nodes > MAX_NODES { return false, out, owned; }
      match v
      case Plain(s) =>
        PlainTree(s, LEVELS - depth);
        ok := CloneScalar(s);
      case Slice(_, _, _, _) => ok, out, owned := CloneSlice(v, depth, copy, h, path);
      case Map(_) => ok, out, owned := CloneMap(v, depth, copy, h, path);
    }

    method CloneSlice(v: Any, depth: nat, copy: bool, ghost h: Heap, ghost path: seq<Any>)
      returns (ok: bool, out: Any, ghost owned: Heap)
      requires Ready(v, depth, h, path) && v.Slice? && depth <= MAX_DEPTH && nodes > 0
      modifies this
      ensures Closed(h) && Within(h, v)
      ensures ok <==> Accepted(h, v, LEVELS - depth, old(nodes) - 1, old(bytes))
      ensures ok ==> var t := Unfold(h, v, LEVELS - depth).value;
                     nodes == old(nodes) - 1 + Size(Nodes, t) && bytes == old(bytes) + Size(ENCODED, t)
                     && active == old(active)
      ensures ok ==> fresh(owned.cells) && fresh(owned.tables)
      ensures ok ==> if copy then Owns(owned, out, LEVELS - depth, Unfold(h, v, LEVELS - depth).value) else out == v
      decreases LEVELS - depth, 0, 2
    {
      hide Chain, Closed, Sound, Weigh, Visited, Unfold, Size, DocOf, Owns, OwnsItems;
      ghost var levels := LEVELS - depth;
      out, owned := v, Heap({}, {});
      if v in active {
        RevisitNeverUnfolds(h, path, v, levels);
        return false, out, owned;
      }
      MoreVisited(path, v);
      SliceCosts(h, v, levels);
      active := active + {v};
      ok := AddBytes(2);
      if !ok { return false, out, owned; }
      var cloned := new Any[if copy then v.length else 0](_ => Plain(Nil));
      ghost var parts;
      ok, parts := CloneItems(v, cloned, depth, copy, h, path);
      if !ok { return false, out, owned; }
      active := active - {v};
      if copy {
        SliceOwned(parts, cloned, levels - 1, Unfold(h, v, levels).value.items);
        out, owned := Slice(cloned, 0, cloned.Length, cloned.Length), Heap(parts.cells + {cloned}, parts.tables);
      }
    }

    method CloneItems(v: Any, cloned: array<Any>, depth: nat, copy: bool, ghost h: Heap, ghost path: seq<Any>)
      returns (ok: bool, ghost owned: Heap)
      requires Walking(v, depth, h, path) && v.Slice? && nodes > 0 && bytes >= 2
      requires cloned !in h.cells && (copy ==> cloned.Length == v.length)
      modifies this, cloned
      ensures Closed(h) && Within(h, v)
      ensures ok <==> Accepted(h, v, LEVELS - depth, old(nodes) - 1, old(bytes) - 2)
      ensures ok ==> var t := Unfold(h, v, LEVELS - depth).value;
                     && nodes == old(nodes) - 1 + Size(Nodes, t) && bytes == old(bytes) - 2 + Size(ENCODED, t)
                     && active == old(active)
                     && fresh(owned.cells) && fresh(owned.tables)
                     && t.Items? && (copy ==> OwnsItems(owned, cloned[..], MAX_DEPTH - depth, t.items))
      decreases LEVELS - depth, 0, 1
    {
      hide Chain, Closed, Sound, Weigh, Visited, Unfold, Size, DocOf, Owns, OwnsItems, Child;
      ghost var levels := LEVELS - depth;
      owned := Heap({}, {});
      ghost var done: seq<Tree> := [];
      EmptyTrees();
      NothingOwned(cloned[..0], levels - 1);
      for index := 0 to v.length
        invariant Walking(v, depth, h, path) && ItemsDone(h, v, levels, done) && |done| == index
        invariant nodes == old(nodes) - 1 + Size(Nodes, Items(done))
                  && bytes == old(bytes) - 2 + Size(ENCODED, Items(done))
        invariant fresh(owned.cells) && fresh(owned.tables)
        invariant copy ==> OwnsItems(owned, cloned[..index], levels - 1, done)
      {
        var child;
        ghost var part;
        ok, child, part := CloneItem(v, index, depth, copy, h, path);
        if !ok {
          ItemRefused(h, v, levels, done, old(nodes) - 1, old(bytes) - 2);
          return false, owned;
        }
        ghost var t := Unfold(h, ItemsOf(v)[index], levels - 1).value;
        NextItem(Nodes, done, t);
        NextItem(ENCODED, done, t);
        if copy {
          MoreItemsOwned(owned, cloned[..index], done, part, child, t, levels - 1);
          cloned[index] := child;
          assert cloned[..index + 1] == cloned[..index] + [child];
          owned := Union(owned, part);
        }
        done := done + [t];
      }
      UnfoldSlice(h, v, levels, done);
      AllSound(done);
      assert copy ==> cloned[..] == cloned[..v.length];
      ok := true;
    }

    /** One item, behind the comma it needs. */
    method CloneItem(v: Any, index: nat, depth: nat, copy: bool, ghost h: Heap, ghost path: seq<Any>)
      returns (ok: bool, child: Any, ghost part: Heap)
      requires Walking(v, depth, h, path) && v.Slice? && index < v.length
      modifies this
      ensures Walking(v, depth, h, path) || !ok
      ensures Closed(h) && Within(h, v) && Within(h, ItemsOf(v)[index])
      ensures ok <==> Accepted(h, ItemsOf(v)[index], MAX_DEPTH - depth, old(nodes), old(bytes) + Comma(ENCODED, index))
      ensures ok ==> var t := Unfold(h, ItemsOf(v)[index], MAX_DEPTH - depth).value;
                     && nodes == old(nodes) + Size(Nodes, t)
                     && bytes == old(bytes) + Comma(ENCODED, index) + Size(ENCODED, t)
                     && fresh(part.cells) && fresh(part.tables) && (copy ==> Owns(part, child, MAX_DEPTH - depth, t))
      decreases LEVELS - depth, 0, 0
    {
      hide Chain, Closed, Sound, Visited, Unfold, Size, Owns, Child;
      ItemWithin(h, v, index);
      var item := v.cells[v.start + index];
      child, part := item, Heap({}, {});
      if index > 0 {
        ok := AddBytes(1);
        if !ok { return; }
      }
      ChainGrows(h, path, v, item);
      ok, child, part := Clone(item, depth + 1, copy, h, path + [v]);
    }

    method CloneMap(v: Any, depth: nat, copy: bool, ghost h: Heap, ghost path: seq<Any>)
      returns (ok: bool, out: Any, ghost owned: Heap)
      requires Ready(v, depth, h, path) && v.Map? && depth <= MAX_DEPTH && nodes > 0
      modifies this
      ensures Closed(h) && Within(h, v)
      ensures ok <==> Accepted(h, v, LEVELS - depth, old(nodes) - 1, old(bytes))
      ensures ok ==> var t := Unfold(h, v, LEVELS - depth).value;
                     nodes == old(nodes) - 1 + Size(Nodes, t) && bytes == old(bytes) + Size(ENCODED, t)
                     && active == old(active)
      ensures ok ==> fresh(owned.cells) && fresh(owned.tables)
      ensures ok ==> if copy then Owns(owned, out, LEVELS - depth, Unfold(h, v, LEVELS - depth).value) else out == v
      decreases LEVELS - depth, 0, 3
    {
      hide Chain, Closed, Sound, Weigh, Visited, Unfold, Size, DocOf, Lists, KeysOf, SoundKey, KeySize, Owns,
           OwnsFields, FieldsDone;
      ghost var levels := LEVELS - depth;
      out, owned := v, Heap({}, {});
      if v in active {
        RevisitNeverUnfolds(h, path, v, levels);
        return false, out, owned;
      }
      MoreVisited(path, v);
      MapCosts(h, v, levels);
      active := active + {v};
      ok := AddBytes(2);
      if !ok { return false, out, owned; }
      var cloned := new MapObject();
      ghost var parts;
      ok, parts := CloneFields(v, cloned, depth, copy, h, path);
      if !ok { return false, out, owned; }
      active := active - {v};
      if copy {
        MapOwned(parts, cloned, levels - 1, Unfold(h, v, levels).value.fields);
        out, owned := Map(cloned), Heap(parts.cells, parts.tables + {cloned});
      }
    }

    method CloneFields(v: Any, cloned: MapObject, depth: nat, copy: bool, ghost h: Heap, ghost path: seq<Any>)
      returns (ok: bool, ghost owned: Heap)
      requires Walking(v, depth, h, path) && v.Map? && nodes > 0 && bytes >= 2
      requires cloned !in h.tables && cloned.fields == map[]
      modifies this, cloned
      ensures Closed(h) && Within(h, v)
      ensures ok <==> Accepted(h, v, LEVELS - depth, old(nodes) - 1, old(bytes) - 2)
      ensures ok ==> var t := Unfold(h, v, LEVELS - depth).value;
                     && nodes == old(nodes) - 1 + Size(Nodes, t) && bytes == old(bytes) - 2 + Size(ENCODED, t)
                     && active == old(active)
                     && fresh(owned.cells) && fresh(owned.tables)
                     && t.Fields? && (copy ==> OwnsFields(owned, cloned.fields, MAX_DEPTH - depth, t.fields))
      decreases LEVELS - depth, 0, 2
    {
      hide Chain, Closed, Sound, Weigh, Visited, Unfold, Size, DocOf, Lists, KeysOf, SoundKey, KeySize, Owns,
           OwnsFields, FieldsDone, Child, Comma, ItemsDone, PrintString;
      ghost var levels := LEVELS - depth;
      owned := Heap({}, {});
      ghost var done: map<Text, Tree>, members: seq<Member> := map[], [];
      var fields := v.table.fields;
      var left, index := fields.Keys, 0;
      EmptyTrees();
      NothingListed(h, v, levels);
      NothingOwned([], levels - 1);
      while left != {}
        invariant Walking(v, depth, h, path) && v.table.fields == fields && index == |members|
        invariant left <= fields.Keys && done.Keys == fields.Keys - left
        invariant FieldsDone(h, v, levels, done, members)
        invariant nodes == old(nodes) - 1 + Weigh(Nodes, DObject(members))
                  && bytes == old(bytes) - 2 + Weigh(ENCODED, DObject(members))
        invariant fresh(owned.cells) && fresh(owned.tables)
        invariant copy ==> OwnsFields(owned, cloned.fields, levels - 1, done)
        decreases left
      {
        var key :| key in left; // a map is walked in no particular order
        ghost var t;
        ok, t, owned := CloneNext(v, key, index, cloned, depth, copy, h, path, done, members, owned, old(nodes) - 1,
                                  old(bytes) - 2);
        if !ok { return; }
        done, members := done[key := t], members + [Member(key, DocOf(t))];
        left, index := left - {key}, index + 1;
      }
      MapDone(h, v, levels, done, members);
      ok := true;
    }

    /** One step of the walk over a map: the field is cloned and kept. */
    method CloneNext(v: Any, key: Text, index: nat, cloned: MapObject, depth: nat, copy: bool, ghost h: Heap,
                     ghost path: seq<Any>, ghost done: map<Text, Tree>, ghost members: seq<Member>, ghost before: Heap,
                     ghost baseNodes: nat, ghost baseBytes: nat)
      returns (ok: bool, ghost t: Tree, ghost owned: Heap)
      requires Walking(v, depth, h, path) && v.Map? && key in v.table.fields && key !in done && index == |members|
      requires FieldsDone(h, v, LEVELS - depth, done, members) && cloned !in h.tables && cloned !in before.tables
      requires nodes == baseNodes + Weigh(Nodes, DObject(members))
               && bytes == baseBytes + Weigh(ENCODED, DObject(members))
      requires copy ==> OwnsFields(before, cloned.fields, MAX_DEPTH - depth, done)
      modifies this, cloned
      ensures Closed(h) && Within(h, v) && v.table.fields == old(v.table.fields)
      ensures !ok ==> !Accepted(h, v, LEVELS - depth, baseNodes, baseBytes)
      ensures ok ==> var more := members + [Member(key, DocOf(t))];
                     && Walking(v, depth, h, path) && FieldsDone(h, v, LEVELS - depth, done[key := t], more)
                     && nodes == baseNodes + Weigh(Nodes, DObject(more))
                     && bytes == baseBytes + Weigh(ENCODED, DObject(more))
                     && fresh(owned.cells - before.cells) && fresh(owned.tables - before.tables)
                     && (copy ==> OwnsFields(owned, cloned.fields, MAX_DEPTH - depth, done[key := t]))
      decreases LEVELS - depth, 0, 1
    {
      hide Chain, Closed, Sound, Weigh, Visited, Unfold, Size, DocOf, Lists, KeysOf, SoundKey, KeySize, Owns,
           OwnsFields, FieldsDone, Child, Comma;
      ghost var levels := LEVELS - depth;
      t, owned := Leaf(Nil), before;
      var child;
      ghost var part;
      ok, child, part := CloneField(v, key, index, depth, copy, h, path);
      if !ok {
        FieldRefused(h, v, levels, done, members, key, baseNodes, baseBytes);
        return;
      }
      t := Unfold(h, v.table.fields[key], levels - 1).value;
      MoreFieldsDone(h, v, levels, done, members, key, t);
      if copy {
        MoreFieldsOwned(before, cloned.fields, done, part, key, child, t, levels - 1);
        cloned.fields := cloned.fields[key := child];
        owned := Union(before, part);
      }
    }

    /** One field, behind the comma and the key it needs. */
    method CloneField(v: Any, key: Text, index: nat, depth: nat, copy: bool, ghost h: Heap, ghost path: seq<Any>)
      returns (ok: bool, child: Any, ghost part: Heap)
      requires Walking(v, depth, h, path) && v.Map? && key in v.table.fields
      modifies this
      ensures Walking(v, depth, h, path) || !ok
      ensures Closed(h) && Within(h, v) && Within(h, v.table.fields[key])
      ensures ok <==> SoundKey(key) && Accepted(h, v.table.fields[key], MAX_DEPTH - depth, old(nodes),
                                                old(bytes) + Comma(ENCODED, index) + KeySize(ENCODED, key))
      ensures ok ==> var t := Unfold(h, v.table.fields[key], MAX_DEPTH - depth).value;
                     && nodes == old(nodes) + Size(Nodes, t)
                     && bytes == old(bytes) + Comma(ENCODED, index) + KeySize(ENCODED, key) + Size(ENCODED, t)
                     && fresh(part.cells) && fresh(part.tables) && (copy ==> Owns(part, child, MAX_DEPTH - depth, t))
      decreases LEVELS - depth, 0, 0
    {
      hide Chain, Closed, Sound, Visited, Unfold, Size, Owns, Child, KeySize, PrintString, Encode, Valid,
           PrototypeSensitive;
      FieldWithin(h, v, key);
      KeyCosts(key);
      var item := v.table.fields[key];
      child, part := item, Heap({}, {});
      if !Valid(key) || PrototypeSensitive(key) { return false, child, part; }
      if index > 0 {
        ok := AddBytes(1);
        if !ok { return; }
      }
      EncodedString(key);
      var length := JsonStringEncodedLength(key);
      ok := AddBytes(length + 1);
      if !ok { return; }
      ChainGrows(h, path, v, item);
      ok, child, part := Clone(item, depth + 1, copy, h, path + [v]);
    }
  }

  lemma AtLeastOne(t: Option<Tree>)
    ensures t.Some? ==> Size(Nodes, t.value) >= 1
  {
  }

  lemma PlainTree(s: Scalar, levels: nat)
    ensures Size(Nodes, Leaf(s)) == 1
    ensures Sound(Leaf(s)) <==> SoundScalar(s)
    ensures levels > 0 ==> Owns(Heap({}, {}), Plain(s), levels, Leaf(s))
  {
  }

  lemma EmptyTrees()
    ensures Size(Nodes, Items([])) == 1 && Size(ENCODED, Items([])) == 2
    ensures Weigh(Nodes, DObject([])) == 1 && Weigh(ENCODED, DObject([])) == 2
  {
  }

  lemma SliceCosts(h: Heap, v: Any, levels: nat)
    requires Closed(h) && Within(h, v) && v.Slice? && levels > 0
    ensures Unfold(h, v, levels).Some? ==> Size(ENCODED, Unfold(h, v, levels).value) >= 2
  {
    UnfoldSlice(h, v, levels, []);
    if Unfold(h, v, levels).Some? {
      var items := Unfold(h, v, levels).value.items;
      FewerItems(ENCODED, items, 0);
      assert items[..0] == [];
      EmptyTrees();
    }
  }

  lemma ItemWithin(h: Heap, v: Any, index: nat)
    requires Closed(h) && Within(h, v) && v.Slice? && index < v.length
    ensures var item := v.cells[v.start + index];
            |ItemsOf(v)| == v.length && ItemsOf(v)[index] == item && Within(h, item) && Child(h, v, item)
  {
  }

  lemma NothingOwned(none: seq<Any>, levels: nat)
    requires none == []
    ensures OwnsItems(Heap({}, {}), none, levels, []) && OwnsFields(Heap({}, {}), map[], levels, map[])
  {
  }

  lemma AllSound(items: seq<Tree>)
    requires forall i :: 0 <= i < |items| ==> Sound(items[i])
    ensures Sound(Items(items))
  {
  }

  lemma AllFieldsSound(fields: map<Text, Tree>)
    requires forall k <- fields :: SoundKey(k) && Sound(fields[k])
    ensures Sound(Fields(fields))
  {
    hide SoundKey;
  }

  lemma NothingListed(h: Heap, v: Any, levels: nat)
    requires Closed(h) && Within(h, v) && v.Map? && levels > 0
    ensures FieldsDone(h, v, levels, map[], [])
  {
  }

  lemma MapCosts(h: Heap, v: Any, levels: nat)
    requires Closed(h) && Within(h, v) && v.Map? && levels > 0
    ensures Unfold(h, v, levels).Some? ==> Size(ENCODED, Unfold(h, v, levels).value) >= 2
  {
    NothingListed(h, v, levels);
    UnfoldMap(h, v, levels, map[], []);
    if Unfold(h, v, levels).Some? {
      ListedBelow(ENCODED, [], Unfold(h, v, levels).value.fields);
      EmptyTrees();
    }
  }

  lemma FieldWithin(h: Heap, v: Any, key: Text)
    requires Closed(h) && Within(h, v) && v.Map? && key in v.table.fields
    ensures Within(h, v.table.fields[key]) && Child(h, v, v.table.fields[key])
  {
  }

  lemma KeyCosts(key: Text)
    ensures KeySize(ENCODED, key) == |PrintString(Html, key)| + 1 && KeySize(Nodes, key) == 0
  {
  }

  lemma MoreFieldsDone(h: Heap, v: Any, levels: nat, done: map<Text, Tree>, members: seq<Member>, key: Text, t: Tree)
    requires Closed(h) && Within(h, v) && v.Map? && levels > 0 && FieldsDone(h, v, levels, done, members)
    requires key in v.table.fields && key !in done && SoundKey(key) && Sound(t)
    requires Within(h, v.table.fields[key]) && Unfold(h, v.table.fields[key], levels - 1) == Some(t)
    ensures var more := members + [Member(key, DocOf(t))];
            && FieldsDone(h, v, levels, done[key := t], more)
            && Weigh(Nodes, DObject(more)) == Weigh(Nodes, DObject(members)) + Size(Nodes, t)
            && Weigh(ENCODED, DObject(more))
               == Weigh(ENCODED, DObject(members)) + Comma(ENCODED, |members|) + KeySize(ENCODED, key)
                   + Size(ENCODED, t)
  {
    hide Closed, Unfold, Sound, SoundKey, DocOf, Weigh, KeySize, Comma;
    var more := done[key := t];
    MemberCosts(members, key, t);
    assert Lists(members, more) by { hide KeysOf; KeysListed(members, done); }
    MoreListed(members, more, key);
  }

  lemma MemberCosts(members: seq<Member>, key: Text, t: Tree)
    ensures var more := members + [Member(key, DocOf(t))];
            && Weigh(Nodes, DObject(more)) == Weigh(Nodes, DObject(members)) + Size(Nodes, t)
            && Weigh(ENCODED, DObject(more))
               == Weigh(ENCODED, DObject(members)) + Comma(ENCODED, |members|) + KeySize(ENCODED, key)
                   + Size(ENCODED, t)
  {
    hide DocOf, Weigh;
    NextMember(Nodes, members, Member(key, DocOf(t)));
    NextMember(ENCODED, members, Member(key, DocOf(t)));
  }

  lemma KeysListed(members: seq<Member>, fields: map<Text, Tree>)
    requires Lists(members, fields)
    ensures forall i :: 0 <= i < |members| ==> members[i].key in fields
  {
  }

  /** All fields done: the map unfolds to them, and their members weigh what the tree weighs. */
  lemma MapDone(h: Heap, v: Any, levels: nat, done: map<Text, Tree>, members: seq<Member>)
    requires Closed(h) && Within(h, v) && v.Map? && levels > 0 && FieldsDone(h, v, levels, done, members)
    requires done.Keys == v.table.fields.Keys
    ensures Unfold(h, v, levels) == Some(Fields(done)) && Sound(Fields(done))
    ensures Weigh(Nodes, DObject(members)) == Size(Nodes, Fields(done))
            && Weigh(ENCODED, DObject(members)) == Size(ENCODED, Fields(done))
  {
    UnfoldMap(h, v, levels, done, members);
    hide Unfold, Weigh, Sound, SoundKey, Lists, KeysOf, DocOf, Size;
    AllFieldsSound(done);
    ListedBelow(Nodes, members, done);
    ListedBelow(ENCODED, members, done);
  }

  // ---------------------------------------------------------------------------
  // The exported operations
  // ---------------------------------------------------------------------------

  /** The closed JSON values within the limits: what encoding/json writes for them has at most 512 KiB. */
  ghost predicate Canonical(h: Heap, v: Any)
    requires Closed(h) && Within(h, v)
    reads h.cells, h.tables
  {
    var t := Unfold(h, v, LEVELS);
    t.Some? && Sound(t.value) && Size(Nodes, t.value) <= MAX_NODES && |Print(Html, DocOf(t.value))| <= MAX_BYTES
  }

  lemma CanonicalIsAccepted(h: Heap, v: Any)
    requires Closed(h) && Within(h, v)
    ensures Canonical(h, v) <==> Accepted(h, v, LEVELS, 0, 0)
  {
    hide Unfold, Sound, Weigh, DocOf, Print;
    var t := Unfold(h, v, LEVELS);
    if t.Some? { PrintedLength(Html, DocOf(t.value)); }
  }

  method ValidateCanonical(v: Any, ghost h: Heap) returns (ok: bool)
    requires Closed(h) && Within(h, v)
    ensures ok <==> Canonical(h, v)
  {
    hide Canonical, Accepted, Closed, Within, Unfold, Owns;
    var state := new State();
    CanonicalIsAccepted(h, v);
    StartOfWalk(h, v);
    var out;
    ghost var owned;
    ok, out, owned := state.Clone(v, 0, false, h, []);
  }

  /** The copy shows the same tree as the value, and every container it refers to is new. */
  method CloneCanonical(v: Any, ghost h: Heap) returns (ok: bool, out: Any, ghost owned: Heap)
    requires Closed(h) && Within(h, v)
    ensures ok <==> Canonical(h, v)
    ensures ok ==> fresh(owned.cells) && fresh(owned.tables) && Owns(owned, out, LEVELS, Unfold(h, v, LEVELS).value)
  {
    hide Accepted, Closed, Within, Unfold, Owns;
    var state := new State();
    CanonicalIsAccepted(h, v);
    StartOfWalk(h, v);
    ok, out, owned := state.Clone(v, 0, true, h, []);
  }

  lemma StartOfWalk(h: Heap, v: Any)
    requires Within(h, v)
    ensures Chain(h, [] + [v]) && Visited([]) == {}
  {
  }

  /** No accepted value is part of a cycle, and every way down from it has at most 65 values. */
  lemma CanonicalIsAcyclic(h: Heap, v: Any, path: seq<Any>)
    requires Closed(h) && Within(h, v) && Canonical(h, v)
    requires path != [] && path[0] == v && Chain(h, path)
    ensures |path| <= LEVELS && forall i, j :: 0 <= i < j < |path| ==> path[i] != path[j]
  {
    hide Sound, Size, DocOf, Print;
    if |path| > LEVELS {
      ChainUnfolds(h, path[..LEVELS + 1], 0, LEVELS, LEVELS);
      assert false;
    }
    forall i, j | 0 <= i < j < |path| ensures path[i] != path[j] {
      ChainUnfolds(h, path, 0, i, LEVELS);
      if path[i] == path[j] {
        var loop := path[..j + 1];
        assert forall k :: 0 <= k <= j ==> loop[k] == path[k];
        CycleNeverUnfolds(h, loop, i, LEVELS - i);
        assert false;
      }
    }
  }

  /** A value whose ways down are short enough, whose tree is sound and small enough, is accepted. */
  lemma RefusedForAReason(h: Heap, v: Any) returns (path: seq<Any>)
    requires Closed(h) && Within(h, v) && !Canonical(h, v)
    ensures var t := Unfold(h, v, LEVELS);
            if t.None? then |path| == LEVELS + 1 && path[0] == v && Chain(h, path)
            else !Sound(t.value) || Size(Nodes, t.value) > MAX_NODES || |Print(Html, DocOf(t.value))| > MAX_BYTES
  {
    path := [];
    if Unfold(h, v, LEVELS).None? { path := LongChain(h, v, LEVELS); }
  }
}
