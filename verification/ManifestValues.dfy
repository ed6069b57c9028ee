/** Decoded manifests: structs, pointers, interfaces, slices and maps over scalars, and their deep copy. */
module ManifestValues {
  import opened Utf8

  /** A Go value of a manifest; only pointers, slices and maps are shared when it is assigned. */
  datatype Node =
    | Scalar(text: Text)
    | NilNode
    | Pointer(cell: Cell)
    | Interface(inner: Node)
    | Slice(items: array<Node>)
    | Table(table: TableObject)
    | Struct(fields: seq<Node>)

  class Cell {
    var value: Node

    constructor (value: Node)
      ensures this.value == value
    {
      this.value := value;
    }
  }

  class TableObject {
    var fields: map<Text, Node>

    constructor ()
      ensures fields == map[]
    {
      fields := map[];
    }
  }

  /** What a node means, whatever it is stored in. */
  datatype Tree =
    | TScalar(text: Text)
    | TNil
    | TPointer(target: Tree)
    | TInterface(inner: Tree)
    | TSlice(items: seq<Tree>)
    | TTable(table: map<Text, Tree>)
    | TStruct(fields: seq<Tree>)

  datatype Heap = Heap(cells: set<Cell>, arrays: set<array<Node>>, tables: set<TableObject>)

  const NO_HEAP := Heap({}, {}, {})

  function Union(g: Heap, h: Heap): Heap {
    Heap(g.cells + h.cells, g.arrays + h.arrays, g.tables + h.tables)
  }

  predicate Disjoint(g: Heap, h: Heap) {
    g.cells !! h.cells && g.arrays !! h.arrays && g.tables !! h.tables
  }

  /** A node stores a tree, and everything it refers to lies in a part of the heap. */
  ghost predicate Holds(h: Heap, v: Node, t: Tree)
    reads h.cells, h.arrays, h.tables
    decreases t
  {
    match t
    case TScalar(text) => v == Scalar(text)
    case TNil => v == NilNode
    case TPointer(target) => v.Pointer? && v.cell in h.cells && Holds(h, v.cell.value, target)
    case TInterface(inner) => v.Interface? && Holds(h, v.inner, inner)
    case TSlice(items) =>
      v.Slice? && v.items in h.arrays && v.items.Length == |items|
      && forall i :: 0 <= i < |items| ==> Holds(h, v.items[i], items[i])
    case TTable(table) =>
      v.Table? && v.table in h.tables && v.table.fields.Keys == table.Keys
      && forall k <- table :: Holds(h, v.table.fields[k], table[k])
    case TStruct(fields) =>
      v.Struct? && |v.fields| == |fields| && forall i :: 0 <= i < |fields| ==> Holds(h, v.fields[i], fields[i])
  }

  lemma {:induction false} HoldsInLarger(g: Heap, h: Heap, v: Node, t: Tree)
    requires Holds(g, v, t) && g.cells <= h.cells && g.arrays <= h.arrays && g.tables <= h.tables
    ensures Holds(h, v, t)
    decreases t
  {
    match t
    case TScalar(_) =>
    case TNil =>
    case TPointer(target) => HoldsInLarger(g, h, v.cell.value, target);
    case TInterface(inner) => HoldsInLarger(g, h, v.inner, inner);
    case TSlice(items) =>
      forall i | 0 <= i < |items| ensures Holds(h, v.items[i], items[i]) { HoldsInLarger(g, h, v.items[i], items[i]); }
    case TTable(table) =>
      forall k <- table
        ensures Holds(h, v.table.fields[k], table[k]) { HoldsInLarger(g, h, v.table.fields[k], table[k]); }
    case TStruct(fields) =>
      forall i | 0 <= i < |fields|
        ensures Holds(h, v.fields[i], fields[i]) { HoldsInLarger(g, h, v.fields[i], fields[i]); }
  }

  ghost predicate HoldsAll(h: Heap, vs: seq<Node>, ts: seq<Tree>)
    reads h.cells, h.arrays, h.tables
  {
    |vs| == |ts| && forall i :: 0 <= i < |vs| ==> Holds(h, vs[i], ts[i])
  }

  lemma MoreHeld(g: Heap, vs: seq<Node>, ts: seq<Tree>, h: Heap, v: Node, t: Tree)
    requires HoldsAll(g, vs, ts) && Holds(h, v, t)
    ensures HoldsAll(Union(g, h), vs + [v], ts + [t])
  {
    var u := Union(g, h);
    HoldsInLarger(h, u, v, t);
    forall i | 0 <= i < |vs| ensures Holds(u, vs[i], ts[i]) { HoldsInLarger(g, u, vs[i], ts[i]); }
  }

  /** Some entries of a table, each with its tree. */
  ghost predicate HoldsFields(h: Heap, vs: map<Text, Node>, ts: map<Text, Tree>)
    reads h.cells, h.arrays, h.tables
  {
    forall k <- vs :: k in ts && Holds(h, vs[k], ts[k])
  }

  lemma MoreFieldsHeld(g: Heap, vs: map<Text, Node>, ts: map<Text, Tree>, h: Heap, key: Text, v: Node)
    requires HoldsFields(g, vs, ts) && key in ts && Holds(h, v, ts[key])
    ensures HoldsFields(Union(g, h), vs[key := v], ts)
  {
    var u, more := Union(g, h), vs[key := v];
    HoldsInLarger(h, u, v, ts[key]);
    forall k <- more ensures k in ts && Holds(u, more[k], ts[k]) {
      if k != key { HoldsInLarger(g, u, vs[k], ts[k]); }
    }
  }

  lemma Parts(h: Heap, v: Node, t: Tree)
    requires Holds(h, v, t)
    ensures v.Slice? ==> t.TSlice? && v.items in h.arrays && HoldsAll(h, v.items[..], t.items)
    ensures v.Table? ==>
              t.TTable? && v.table in h.tables && v.table.fields.Keys == t.table.Keys
              && HoldsFields(h, v.table.fields, t.table)
    ensures v.Struct? ==> t.TStruct? && HoldsAll(h, v.fields, t.fields)
  {
  }

  lemma SliceHolds(g: Heap, items: array<Node>, ts: seq<Tree>)
    requires HoldsAll(g, items[..], ts)
    ensures Holds(Heap(g.cells, g.arrays + {items}, g.tables), Slice(items), TSlice(ts))
  {
    var h := Heap(g.cells, g.arrays + {items}, g.tables);
    forall i | 0 <= i < |ts| ensures Holds(h, items[i], ts[i]) { HoldsInLarger(g, h, items[..][i], ts[i]); }
  }

  lemma TableHolds(g: Heap, table: TableObject, ts: map<Text, Tree>)
    requires table.fields.Keys == ts.Keys && HoldsFields(g, table.fields, ts)
    ensures Holds(Heap(g.cells, g.arrays, g.tables + {table}), Table(table), TTable(ts))
  {
    var h := Heap(g.cells, g.arrays, g.tables + {table});
    forall k <- ts ensures Holds(h, table.fields[k], ts[k]) { HoldsInLarger(g, h, table.fields[k], ts[k]); }
  }

  // ---------------------------------------------------------------------------
  // Deep copy
  // ---------------------------------------------------------------------------

  /** The copy stores the same tree, and nothing it refers to existed before. */
  method Clone(v: Node, ghost t: Tree, ghost h: Heap) returns (out: Node, ghost owned: Heap)
    requires Holds(h, v, t)
    ensures Holds(owned, out, t)
    ensures fresh(owned.cells) && fresh(owned.arrays) && fresh(owned.tables)
    decreases t, 1
  {
    owned := NO_HEAP;
    match v
    case Scalar(_) => out := v;
    case NilNode => out := v;
    case Pointer(cell) =>
      var inner;
      ghost var part;
      inner, part := Clone(cell.value, t.target, h);
      var copy := new Cell(inner);
      owned := Union(part, Heap({copy}, {}, {}));
      HoldsInLarger(part, owned, inner, t.target);
      out := Pointer(copy);
    case Interface(inner) =>
      var copy;
      copy, owned := Clone(inner, t.inner, h);
      out := Interface(copy);
    case Slice(items) => out, owned := CloneSlice(v, t, h);
    case Table(table) => out, owned := CloneTable(v, t, h);
    case Struct(fields) => out, owned := CloneStruct(v, t, h);
  }

  method CloneSlice(v: Node, ghost t: Tree, ghost h: Heap) returns (out: Node, ghost owned: Heap)
    requires Holds(h, v, t) && v.Slice?
    ensures Holds(owned, out, t)
    ensures fresh(owned.cells) && fresh(owned.arrays) && fresh(owned.tables)
    decreases t, 0
  {
    hide Holds;
    Parts(h, v, t);
    var items := v.items;
    var copy := new Node[items.Length](_ => NilNode);
    owned := NO_HEAP;
    for i := 0 to items.Length
      invariant HoldsAll(h, items[..], t.items) && copy !in owned.arrays
      invariant fresh(owned.cells) && fresh(owned.arrays) && fresh(owned.tables)
      invariant HoldsAll(owned, copy[..i], t.items[..i])
    {
      assert Holds(h, items[..][i], t.items[i]);
      var item;
      ghost var part;
      item, part := Clone(items[i], t.items[i], h);
      MoreHeld(owned, copy[..i], t.items[..i], part, item, t.items[i]);
      copy[i] := item;
      assert copy[..i + 1] == copy[..i] + [item] && t.items[..i + 1] == t.items[..i] + [t.items[i]];
      owned := Union(owned, part);
    }
    assert copy[..] == copy[..items.Length] && t.items == t.items[..items.Length];
    SliceHolds(owned, copy, t.items);
    owned := Heap(owned.cells, owned.arrays + {copy}, owned.tables);
    out := Slice(copy);
  }

  method CloneTable(v: Node, ghost t: Tree, ghost h: Heap) returns (out: Node, ghost owned: Heap)
    requires Holds(h, v, t) && v.Table?
    ensures Holds(owned, out, t)
    ensures fresh(owned.cells) && fresh(owned.arrays) && fresh(owned.tables)
    decreases t, 0, 0
  {
    hide Holds;
    Parts(h, v, t);
    var fields := v.table.fields;
    var copy := new TableObject();
    owned := NO_HEAP;
    var left := fields.Keys;
    while left != {}
      invariant HoldsFields(h, fields, t.table) && copy !in owned.tables && left <= fields.Keys
      invariant fresh(owned.cells) && fresh(owned.arrays) && fresh(owned.tables)
      invariant copy.fields.Keys == fields.Keys - left && HoldsFields(owned, copy.fields, t.table)
      decreases left
    {
      var key :| key in left;
      owned := CloneEntry(fields[key], key, copy, t.table, h, owned);
      left := left - {key};
    }
    TableHolds(owned, copy, t.table);
    owned := Heap(owned.cells, owned.arrays, owned.tables + {copy});
    out := Table(copy);
  }

  /** One entry of a map, copied under the same key. */
  method CloneEntry(v: Node, key: Text, copy: TableObject, ghost ts: map<Text, Tree>, ghost h: Heap, ghost before: Heap)
    returns (ghost owned: Heap)
    requires key in ts && Holds(h, v, ts[key]) && HoldsFields(before, copy.fields, ts) && copy !in before.tables
             && copy !in h.tables
    modifies copy
    ensures copy.fields.Keys == old(copy.fields.Keys) + {key} && HoldsFields(owned, copy.fields, ts)
            && copy !in owned.tables
    ensures fresh(owned.cells - before.cells) && fresh(owned.arrays - before.arrays)
            && fresh(owned.tables - before.tables)
    decreases ts[key], 2
  {
    hide Holds, HoldsFields;
    var item;
    ghost var part;
    item, part := Clone(v, ts[key], h);
    MoreFieldsHeld(before, copy.fields, ts, part, key, item);
    copy.fields := copy.fields[key := item];
    owned := Union(before, part);
  }

  method CloneStruct(v: Node, ghost t: Tree, ghost h: Heap) returns (out: Node, ghost owned: Heap)
    requires Holds(h, v, t) && v.Struct?
    ensures Holds(owned, out, t)
    ensures fresh(owned.cells) && fresh(owned.arrays) && fresh(owned.tables)
    decreases t, 0
  {
    var copy: seq<Node> := [];
    owned := NO_HEAP;
    for i := 0 to |v.fields|
      invariant Holds(h, v, t)
      invariant fresh(owned.cells) && fresh(owned.arrays) && fresh(owned.tables)
      invariant HoldsAll(owned, copy, t.fields[..i])
    {
      var field;
      ghost var part;
      field, part := Clone(v.fields[i], t.fields[i], h);
      MoreHeld(owned, copy, t.fields[..i], part, field, t.fields[i]);
      copy := copy + [field];
      assert t.fields[..i + 1] == t.fields[..i] + [t.fields[i]];
      owned := Union(owned, part);
    }
    assert t.fields[..|t.fields|] == t.fields;
    out := Struct(copy);
  }

  // ---------------------------------------------------------------------------
  // Decoding allocates
  // ---------------------------------------------------------------------------

  /** A decoder stores what it decoded in newly allocated containers. */
  method Build(t: Tree) returns (out: Node, ghost owned: Heap)
    ensures Holds(owned, out, t)
    ensures fresh(owned.cells) && fresh(owned.arrays) && fresh(owned.tables)
    decreases t, 1
  {
    owned := NO_HEAP;
    match t
    case TScalar(text) => out := Scalar(text);
    case TNil => out := NilNode;
    case TPointer(target) =>
      var inner;
      ghost var part;
      inner, part := Build(target);
      var cell := new Cell(inner);
      owned := Union(part, Heap({cell}, {}, {}));
      HoldsInLarger(part, owned, inner, target);
      out := Pointer(cell);
    case TInterface(inner) =>
      var built;
      built, owned := Build(inner);
      out := Interface(built);
    case TSlice(items) =>
      var built;
      built, owned := BuildAll(items);
      var cells := new Node[|built|](i requires 0 <= i < |built| => built[i]);
      assert cells[..] == built;
      SliceHolds(owned, cells, items);
      owned := Heap(owned.cells, owned.arrays + {cells}, owned.tables);
      out := Slice(cells);
    case TTable(table) => out, owned := BuildTable(t);
    case TStruct(fields) =>
      var built;
      built, owned := BuildAll(fields);
      out := Struct(built);
  }

  method BuildAll(ts: seq<Tree>) returns (out: seq<Node>, ghost owned: Heap)
    ensures HoldsAll(owned, out, ts)
    ensures fresh(owned.cells) && fresh(owned.arrays) && fresh(owned.tables)
    decreases ts, 0
  {
    hide Holds;
    out, owned := [], NO_HEAP;
    for i := 0 to |ts|
      invariant fresh(owned.cells) && fresh(owned.arrays) && fresh(owned.tables)
      invariant HoldsAll(owned, out, ts[..i])
    {
      var item;
      ghost var part;
      item, part := Build(ts[i]);
      MoreHeld(owned, out, ts[..i], part, item, ts[i]);
      assert ts[..i + 1] == ts[..i] + [ts[i]];
      out, owned := out + [item], Union(owned, part);
    }
    assert ts[..|ts|] == ts;
  }

  method BuildTable(t: Tree) returns (out: Node, ghost owned: Heap)
    requires t.TTable?
    ensures Holds(owned, out, t)
    ensures fresh(owned.cells) && fresh(owned.arrays) && fresh(owned.tables)
    decreases t, 0
  {
    hide Holds;
    var table := new TableObject();
    owned := NO_HEAP;
    var left := t.table.Keys;
    while left != {}
      invariant fresh(owned.cells) && fresh(owned.arrays) && fresh(owned.tables) && table !in owned.tables
      invariant left <= t.table.Keys && table.fields.Keys == t.table.Keys - left
      invariant HoldsFields(owned, table.fields, t.table)
      decreases left
    {
      var key :| key in left;
      var item;
      ghost var part;
      item, part := Build(t.table[key]);
      MoreFieldsHeld(owned, table.fields, t.table, part, key, item);
      table.fields := table.fields[key := item];
      owned := Union(owned, part);
      left := left - {key};
    }
    TableHolds(owned, table, t.table);
    owned := Heap(owned.cells, owned.arrays, owned.tables + {table});
    out := Table(table);
  }

  // ---------------------------------------------------------------------------
  // Reading
  // ---------------------------------------------------------------------------

  /** What a reader who follows every reference finds: a node stores only one tree. */
  method Observe(v: Node, ghost t: Tree, ghost h: Heap) returns (r: Tree)
    requires Holds(h, v, t)
    ensures r == t
    decreases t, 1
  {
    match v
    case Scalar(text) => r := TScalar(text);
    case NilNode => r := TNil;
    case Pointer(cell) =>
      var target := Observe(cell.value, t.target, h);
      r := TPointer(target);
    case Interface(inner) =>
      var seen := Observe(inner, t.inner, h);
      r := TInterface(seen);
    case Slice(items) =>
      Parts(h, v, t);
      var seen := ObserveAll(items[..], t.items, h);
      r := TSlice(seen);
    case Table(table) => r := ObserveTable(v, t, h);
    case Struct(fields) =>
      var seen := ObserveAll(fields, t.fields, h);
      r := TStruct(seen);
  }

  method ObserveAll(vs: seq<Node>, ghost ts: seq<Tree>, ghost h: Heap) returns (r: seq<Tree>)
    requires HoldsAll(h, vs, ts)
    ensures r == ts
    decreases ts, 0
  {
    hide Holds;
    r := [];
    for i := 0 to |vs|
      invariant r == ts[..i]
    {
      var seen := Observe(vs[i], ts[i], h);
      r := r + [seen];
    }
  }

  method ObserveTable(v: Node, ghost t: Tree, ghost h: Heap) returns (r: Tree)
    requires Holds(h, v, t) && v.Table?
    ensures r == t
    decreases t, 0
  {
    hide Holds;
    Parts(h, v, t);
    var fields, left, seen := v.table.fields, v.table.fields.Keys, map[];
    while left != {}
      invariant left <= fields.Keys && seen.Keys == fields.Keys - left
      invariant forall k <- seen :: seen[k] == t.table[k]
      decreases left
    {
      var key :| key in left;
      var item := Observe(fields[key], t.table[key], h);
      seen := seen[key := item];
      left := left - {key};
    }
    assert seen == t.table;
    r := TTable(seen);
  }
}
