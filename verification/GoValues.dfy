/** The closed Go representation of a JSON value: a graph of slices and maps that may share and may be cyclic. */
module GoValues {
  import opened Outcomes
  import opened Utf8
  import opened JsonSyntax
  import opened JsonValues

  /** Values without children; a float is known by its encoded text and whether it is in range. */
  datatype Scalar =
    | Nil
    | Bool(b: bool)
    | Float(inRange: bool, text: Text)
    | Number(text: Text)
    | Str(s: Text)
    | NilSlice
    | NilMap
    | Other

  /** A slice is a window of an array; a map is a reference. Two slices are the same when all four parts are. */
  datatype Any =
    | Plain(scalar: Scalar)
    | Slice(cells: array<Any>, start: nat, length: nat, capacity: nat)
    | Map(table: MapObject)

  class MapObject {
    var fields: map<Text, Any>

    constructor ()
      ensures fields == map[]
    {
      fields := map[];
    }
  }

  // ---------------------------------------------------------------------------
  // A closed part of the heap
  // ---------------------------------------------------------------------------

  datatype Heap = Heap(cells: set<array<Any>>, tables: set<MapObject>)

  function Union(g: Heap, h: Heap): Heap {
    Heap(g.cells + h.cells, g.tables + h.tables)
  }

  ghost predicate Within(h: Heap, v: Any) {
    match v
    case Plain(_) => true
    case Slice(cells, start, length, capacity) =>
      cells in h.cells && length <= capacity && start + capacity <= cells.Length
    case Map(table) => table in h.tables
  }

  ghost predicate Closed(h: Heap)
    reads h.cells, h.tables
  {
    && (forall c <- h.cells :: forall i :: 0 <= i < c.Length ==> Within(h, c[i]))
    && (forall t <- h.tables :: forall k <- t.fields :: Within(h, t.fields[k]))
  }

  /** The items a slice shows. */
  ghost function ItemsOf(v: Any): seq<Any>
    requires v.Slice? && v.length <= v.capacity && v.start + v.capacity <= v.cells.Length
    reads v.cells
  {
    v.cells[v.start..v.start + v.length]
  }

  ghost predicate Child(h: Heap, v: Any, c: Any)
    requires Within(h, v)
    reads h.cells, h.tables
  {
    match v
    case Plain(_) => false
    case Slice(_, _, _, _) => exists i :: 0 <= i < |ItemsOf(v)| && ItemsOf(v)[i] == c
    case Map(table) => exists k :: k in table.fields && table.fields[k] == c
  }

  // ---------------------------------------------------------------------------
  // The tree a value unfolds to
  // ---------------------------------------------------------------------------

  datatype Tree = Leaf(scalar: Scalar) | Items(items: seq<Tree>) | Fields(fields: map<Text, Tree>)

  /** The tree of a value, if it ends within a number of levels. */
  ghost function Unfold(h: Heap, v: Any, levels: nat): Option<Tree>
    requires Closed(h) && Within(h, v)
    reads h.cells, h.tables
    decreases levels, 1, 0
  {
    if levels == 0 then None
    else
      match v
      case Plain(s) => Some(Leaf(s))
      case Slice(_, _, _, _) =>
        var items := UnfoldAll(h, ItemsOf(v), levels - 1);
        if items.Some? then Some(Items(items.value)) else None
      case Map(table) =>
        if forall k <- table.fields :: Unfold(h, table.fields[k], levels - 1).Some?
        then Some(Fields(map k | k in table.fields :: Unfold(h, table.fields[k], levels - 1).value))
        else None
  }

  ghost function UnfoldAll(h: Heap, vs: seq<Any>, levels: nat): (r: Option<seq<Tree>>)
    requires Closed(h) && forall i :: 0 <= i < |vs| ==> Within(h, vs[i])
    reads h.cells, h.tables
    ensures r.Some? <==> forall i :: 0 <= i < |vs| ==> Unfold(h, vs[i], levels).Some?
    ensures r.Some? ==> |r.value| == |vs| && forall i :: 0 <= i < |vs| ==> Unfold(h, vs[i], levels) == Some(r.value[i])
    decreases levels, 2, |vs|
  {
    if vs == [] then Some([])
    else
      var first := Unfold(h, vs[0], levels);
      var rest := UnfoldAll(h, vs[1..], levels);
      assert forall i :: 0 < i < |vs| ==> vs[i] == vs[1..][i - 1];
      if first.Some? && rest.Some? then Some([first.value] + rest.value) else None
  }

  /** A larger closed heap shows the same tree. */
  lemma {:induction false} UnfoldInLarger(g: Heap, h: Heap, v: Any, levels: nat)
    requires Closed(g) && Closed(h) && Within(g, v) && g.cells <= h.cells && g.tables <= h.tables
    ensures Within(h, v) && Unfold(g, v, levels) == Unfold(h, v, levels)
    decreases levels
  {
    if levels > 0 {
      match v
      case Plain(_) =>
      case Slice(_, _, _, _) =>
        var items := ItemsOf(v);
        forall i | 0 <= i < |items|
          ensures Within(h, items[i]) && Unfold(g, items[i], levels - 1) == Unfold(h, items[i], levels - 1) {
          UnfoldInLarger(g, h, items[i], levels - 1);
        }
        var a, b := UnfoldAll(g, items, levels - 1), UnfoldAll(h, items, levels - 1);
        assert a.Some? <==> b.Some?;
        if a.Some? { assert a.value == b.value; }
      case Map(table) =>
        forall k <- table.fields
          ensures Unfold(g, table.fields[k], levels - 1) == Unfold(h, table.fields[k], levels - 1) {
          UnfoldInLarger(g, h, table.fields[k], levels - 1);
        }
        var a, b := Unfold(g, v, levels), Unfold(h, v, levels);
        assert a.Some? <==> b.Some?;
        if a.Some? { assert a.value.fields == b.value.fields; }
    }
  }

  // ---------------------------------------------------------------------------
  // Cycles
  // ---------------------------------------------------------------------------

  /** Each value is a child of the one before it. */
  ghost predicate Chain(h: Heap, path: seq<Any>)
    reads h.cells, h.tables
  {
    && (forall i :: 0 <= i < |path| ==> Within(h, path[i]))
    && (forall i :: 0 <= i < |path| - 1 ==> Child(h, path[i], path[i + 1]))
  }

  lemma ChildUnfolds(h: Heap, v: Any, c: Any, levels: nat)
    requires Closed(h) && Within(h, v) && Child(h, v, c) && Unfold(h, v, levels).Some?
    ensures levels > 0 && Within(h, c) && Unfold(h, c, levels - 1).Some?
  {
  }

  lemma {:induction false} ChainUnfolds(h: Heap, path: seq<Any>, i: nat, j: nat, levels: nat)
    requires Closed(h) && Chain(h, path) && i <= j < |path| && Unfold(h, path[i], levels).Some?
    ensures j - i <= levels && Unfold(h, path[j], levels - (j - i)).Some?
    decreases j - i
  {
    if i < j {
      ChildUnfolds(h, path[i], path[i + 1], levels);
      ChainUnfolds(h, path, i + 1, j, levels - 1);
    }
  }

  /** A value that is its own descendant unfolds in no number of levels. */
  lemma {:induction false} CycleNeverUnfolds(h: Heap, path: seq<Any>, i: nat, levels: nat)
    requires Closed(h) && Chain(h, path) && i < |path| - 1 && path[i] == path[|path| - 1]
    ensures Unfold(h, path[i], levels).None?
    decreases levels
  {
    var n := |path| - 1 - i;
    if Unfold(h, path[i], levels).Some? {
      ChainUnfolds(h, path, i, |path| - 1, levels);
      CycleNeverUnfolds(h, path, i, levels - n);
      assert false;
    }
  }

  /** A value that does not unfold in some levels has a chain of descendants longer than that. */
  lemma {:induction false} LongChain(h: Heap, v: Any, levels: nat) returns (path: seq<Any>)
    requires Closed(h) && Within(h, v) && Unfold(h, v, levels).None?
    ensures |path| == levels + 1 && path[0] == v && Chain(h, path)
    decreases levels
  {
    if levels == 0 {
      path := [v];
    } else {
      var c := StuckChild(h, v, levels);
      var rest := LongChain(h, c, levels - 1);
      path := [v] + rest;
      forall i | 0 <= i < |path| - 1 ensures Child(h, path[i], path[i + 1]) {
        if i > 0 { assert Child(h, rest[i - 1], rest[i]); }
      }
    }
  }

  lemma StuckChild(h: Heap, v: Any, levels: nat) returns (c: Any)
    requires Closed(h) && Within(h, v) && levels > 0 && Unfold(h, v, levels).None?
    ensures Within(h, c) && Child(h, v, c) && Unfold(h, c, levels - 1).None?
  {
    match v
    case Slice(_, _, _, _) =>
      var items := ItemsOf(v);
      var i :| 0 <= i < |items| && Unfold(h, items[i], levels - 1).None?;
      c := items[i];
    case Map(table) =>
      var k :| k in table.fields && Unfold(h, table.fields[k], levels - 1).None?;
      c := table.fields[k];
    case Plain(_) =>
  }

  // ---------------------------------------------------------------------------
  // What encoding/json writes for a tree
  // ---------------------------------------------------------------------------

  ghost function ValueOf(t: Tree): Value
    decreases t
  {
    match t
    case Leaf(s) =>
      (match s
       case Bool(b) => VBool(b)
       case Float(_, text) => VNumber(text)
       case Number(text) => VNumber(text)
       case Str(s) => VString(s)
       case _ => VNull)
    case Items(items) => VArray(ValuesOf(items))
    case Fields(fields) => VObject(map k | k in fields :: ValueOf(fields[k]))
  }

  ghost function ValuesOf(items: seq<Tree>): (r: seq<Value>)
    ensures |r| == |items| && forall i :: 0 <= i < |r| ==> r[i] == ValueOf(items[i])
    decreases items
  {
    if items == [] then [] else [ValueOf(items[0])] + ValuesOf(items[1..])
  }

  /** The document of a tree: nil slices and maps are null, object keys are sorted. */
  ghost function DocOf(t: Tree): Doc {
    SortedDoc(ValueOf(t))
  }
}
