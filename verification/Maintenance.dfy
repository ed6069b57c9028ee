/** Listing every data generation page by page, with cursors that name the last row seen. */
module Maintenance {
  import opened Outcomes
  import opened ControlRows
  import opened DataCatalog
  import opened CatalogInvariant
  import opened Ordering

  const NUL: char := '\0'
  const DEFAULT_LIMIT := 256
  const MAX_LIMIT := 1000

  // ---------------------------------------------------------------------------
  // Rows and their order
  // ---------------------------------------------------------------------------

  datatype Listed = Listed(owner: string, binding: Binding)

  /** The generations of all owners: the current ones and the ones in the history. */
  function Slots(s: Catalog): set<Slot> {
    (set key | key in s.bindings :: Slot(key, s.bindings[key].generation)) + s.history.Keys
  }

  function RowAt(s: Catalog, slot: Slot): Listed
    requires slot in Slots(s)
  {
    Listed(slot.key.owner,
           if slot in s.history then s.history[slot].binding else s.bindings[slot.key])
  }

  /** The place of a row in the listing. */
  function SlotOf(row: Listed): Slot {
    Slot(Key(row.owner, row.binding.instance), row.binding.generation)
  }

  function SlotsOf(rows: seq<Listed>): (r: seq<Slot>)
    ensures |r| == |rows| && forall i :: 0 <= i < |r| ==> r[i] == SlotOf(rows[i])
  {
    seq(|rows|, i requires 0 <= i < |rows| => SlotOf(rows[i]))
  }

  predicate SlotLess(a: Slot, b: Slot) {
    || StringLess(a.key.owner, b.key.owner)
    || (a.key.owner == b.key.owner && StringLess(a.key.instance, b.key.instance))
    || (a.key == b.key && StringLess(a.generation, b.generation))
  }

  function BySlot(): (Slot, Slot) -> bool {
    (a, b) => SlotLess(a, b)
  }

  lemma SlotTransitive(a: Slot, b: Slot, c: Slot)
    requires SlotLess(a, b) && SlotLess(b, c)
    ensures SlotLess(a, c)
  {
    if StringLess(a.key.owner, b.key.owner) && StringLess(b.key.owner, c.key.owner) {
      LexTransitive(CharCode, a.key.owner, b.key.owner, c.key.owner);
    }
    if StringLess(a.key.instance, b.key.instance) && StringLess(b.key.instance, c.key.instance) {
      LexTransitive(CharCode, a.key.instance, b.key.instance, c.key.instance);
    }
    if StringLess(a.generation, b.generation) && StringLess(b.generation, c.generation) {
      LexTransitive(CharCode, a.generation, b.generation, c.generation);
    }
  }

  lemma SlotIrreflexive(a: Slot)
    ensures !SlotLess(a, a)
  {
    LexIrreflexive(CharCode, a.key.owner);
    LexIrreflexive(CharCode, a.key.instance);
    LexIrreflexive(CharCode, a.generation);
  }

  lemma SlotTotal(a: Slot, b: Slot)
    ensures a == b || SlotLess(a, b) || SlotLess(b, a)
  {
    LexTotal(CharCode, a.key.owner, b.key.owner);
    LexTotal(CharCode, a.key.instance, b.key.instance);
    LexTotal(CharCode, a.generation, b.generation);
  }

  lemma SlotsAreOrdered(s: set<Slot>)
    ensures StrictTotal(BySlot(), s)
  {
    var less := BySlot();
    forall x <- s ensures !less(x, x) { SlotIrreflexive(x); }
    forall x <- s, y <- s, z <- s | less(x, y) && less(y, z) ensures less(x, z) { SlotTransitive(x, y, z); }
    forall x <- s, y <- s ensures x == y || less(x, y) || less(y, x) { SlotTotal(x, y); }
  }

  ghost predicate Ascending(slots: seq<Slot>) {
    forall i, j :: 0 <= i < j < |slots| ==> SlotLess(slots[i], slots[j])
  }

  // ---------------------------------------------------------------------------
  // Cursors
  // ---------------------------------------------------------------------------

  predicate NulFree(s: string) {
    forall i :: 0 <= i < |s| ==> s[i] != NUL
  }

  predicate Nameable(slot: Slot) {
    NulFree(slot.key.owner) && NulFree(slot.key.instance) && NulFree(slot.generation)
  }

  function Cursor(slot: Slot): string {
    slot.key.owner + ([NUL] + (slot.key.instance + ([NUL] + slot.generation)))
  }

  /** The parts of a text between its NUL characters. */
  function Split(s: string): (r: seq<string>)
    ensures r != []
  {
    if s == "" then [""]
    else if s[0] == NUL then [""] + Split(s[1..])
    else
      var rest := Split(s[1..]);
      [[s[0]] + rest[0]] + rest[1..]
  }

  lemma {:induction false} SplitFirst(part: string, rest: string)
    requires NulFree(part)
    ensures Split(part + ([NUL] + rest)) == [part] + Split(rest)
  {
    var s := part + ([NUL] + rest);
    if part == "" {
      assert s == [NUL] + rest && s[1..] == rest;
    } else {
      assert s[1..] == part[1..] + ([NUL] + rest);
      SplitFirst(part[1..], rest);
      assert part == [part[0]] + part[1..];
    }
  }

  lemma {:induction false} SplitLast(part: string)
    requires NulFree(part)
    ensures Split(part) == [part]
  {
    if part != "" {
      SplitLast(part[1..]);
      assert part == [part[0]] + part[1..];
    }
  }

  /** Splitting a cursor gives back what it names. */
  lemma CursorNamesSlot(slot: Slot)
    requires Nameable(slot)
    ensures Cursor(slot) != "" && Split(Cursor(slot)) == [slot.key.owner, slot.key.instance, slot.generation]
  {
    SplitFirst(slot.key.owner, slot.key.instance + ([NUL] + slot.generation));
    SplitFirst(slot.key.instance, slot.generation);
    SplitLast(slot.generation);
  }

  /** Where a listing starts: behind the row a cursor names, or before everything. */
  function Start(cursor: string): Option<Slot> {
    if cursor == "" then Some(Slot(Key("", ""), ""))
    else
      var parts := Split(cursor);
      if |parts| == 3 then Some(Slot(Key(parts[0], parts[1]), parts[2])) else None
  }

  function Remaining(s: Catalog, start: Slot): set<Slot> {
    set slot | slot in Slots(s) && SlotLess(start, slot)
  }

  function PageLimit(limit: int): nat {
    if limit <= 0 || limit > MAX_LIMIT then DEFAULT_LIMIT else limit
  }

  // ---------------------------------------------------------------------------
  // One page
  // ---------------------------------------------------------------------------

  /** The first n rows in order, or all of them if there are fewer. */
  ghost predicate FirstRows(all: set<Slot>, n: nat, page: seq<Slot>) {
    && Ascending(page) && (forall i :: 0 <= i < |page| ==> page[i] in all)
    && (forall x <- all :: x !in page ==> |page| == n && forall i :: 0 <= i < |page| ==> SlotLess(page[i], x))
    && |page| <= n
  }

  method SelectRows(all: set<Slot>, n: nat) returns (page: seq<Slot>)
    ensures FirstRows(all, n, page)
  {
    hide SlotLess;
    page := [];
    var left := all;
    while left != {} && |page| < n
      invariant Ascending(page) && |page| <= n && left <= all
      invariant forall x :: x in all <==> x in left || x in page
      invariant forall x <- left :: forall i :: 0 <= i < |page| ==> SlotLess(page[i], x)
      decreases left
    {
      ghost var first := LeastOf(left);
      var next :| next in left && forall x <- left :: x == next || SlotLess(next, x);
      page := page + [next];
      left := left - {next};
    }
  }

  lemma LeastOf(s: set<Slot>) returns (first: Slot)
    requires s != {}
    ensures first in s && forall x <- s :: x == first || SlotLess(first, x)
  {
    SlotsAreOrdered(s);
    first := FirstExists(BySlot(), s);
  }

  /** In a catalog that keeps its invariant every row of the listing can be read. */
  lemma RowIsValid(p: Platform, s: Catalog, slot: Slot)
    requires Inv(p, s) && slot in Slots(s)
    ensures ValidBinding(RowAt(s, slot).binding) && (slot in s.history ==> HistoryDecodes(p, slot, s.history[slot]))
    ensures SlotOf(RowAt(s, slot)) == slot
  {
    if slot !in s.history { assert RowFits(p, slot.key, s.records[slot.key], BindingAt(s, slot.key), s.history); }
  }

  lemma {:induction false} RowCount(rows: seq<Slot>)
    requires Ascending(rows)
    ensures |set i | 0 <= i < |rows| :: rows[i]| == |rows|
  {
    var members := set i | 0 <= i < |rows| :: rows[i];
    if rows != [] {
      var n := |rows| - 1;
      RowCount(rows[..n]);
      var fewer := set i | 0 <= i < |rows[..n]| :: rows[..n][i];
      SlotIrreflexive(rows[n]);
      assert members == fewer + {rows[n]} by {
        forall i | 0 <= i < n ensures rows[i] in fewer { assert rows[..n][i] == rows[i]; }
      }
    }
  }

  /** The rows read are all there are, or as many as were asked for. */
  lemma AllOrMore(s: Catalog, start: Slot, n: nat, rows: seq<Slot>)
    requires FirstRows(Remaining(s, start), n, rows)
    ensures |rows| == if n < |Remaining(s, start)| then n else |Remaining(s, start)|
    ensures forall i :: 0 <= i < |rows| ==> rows[i] in Slots(s)
  {
    var all := Remaining(s, start);
    var members := set i | 0 <= i < |rows| :: rows[i];
    RowCount(rows);
    CardinalityMonotone(members, all);
    if x :| x in all && x !in rows {
    } else {
      assert members == all;
    }
  }

  lemma FewerRows(all: set<Slot>, n: nat, rows: seq<Slot>)
    requires FirstRows(all, n + 1, rows)
    ensures FirstRows(all, n, rows[..if |rows| > n then n else |rows|])
  {
    hide SlotLess;
    var page := rows[..if |rows| > n then n else |rows|];
    assert forall i :: 0 <= i < |page| ==> page[i] == rows[i];
    forall x <- all | x !in page ensures |page| == n && forall i :: 0 <= i < |page| ==> SlotLess(page[i], x) {
      if x in rows {
        var k :| 0 <= k < |rows| && rows[k] == x;
        assert k >= |page|;
      }
    }
  }

  /** A page of rows, and a cursor for the next one if there are more. */
  method ListPage(p: Platform, s: Catalog, cursor: string, limit: int) returns (r: Result<(seq<Listed>, string), Error>)
    requires Inv(p, s)
    ensures Start(cursor).None? ==> r == Failure(InvalidArgument)
    ensures Start(cursor).Some? ==>
              && r.Success?
              && var page, left := SlotsOf(r.value.0), Remaining(s, Start(cursor).value);
              && FirstRows(left, PageLimit(limit), page)
              && (forall i :: 0 <= i < |page| ==> page[i] in Slots(s) && r.value.0[i] == RowAt(s, page[i]))
              && (if |left| > |page| then page != [] && r.value.1 == Cursor(page[|page| - 1]) else r.value.1 == "")
  {
    hide Inv, Split, Slots, SlotLess, HistoryDecodes, ValidBinding, FirstRows, RowAt, SlotOf;
    var start := Start(cursor);
    if start.None? { return Failure(InvalidArgument); }
    var most := PageLimit(limit);
    var all := Remaining(s, start.value);
    var rows := SelectRows(all, most + 1);
    AllOrMore(s, start.value, most + 1, rows);
    FewerRows(all, most, rows);
    var entries := [];
    for i := 0 to |rows|
      invariant |entries| == i
      invariant forall j :: 0 <= j < i ==>
                  rows[j] in Slots(s) && entries[j] == RowAt(s, rows[j]) && SlotOf(entries[j]) == rows[j]
    {
      RowIsValid(p, s, rows[i]);
      if rows[i] in s.history && !HistoryDecodes(p, rows[i], s.history[rows[i]]) { return Failure(Incompatible); }
      var row := RowAt(s, rows[i]);
      if !ValidBinding(row.binding) { return Failure(InvalidArgument); }
      entries := entries + [row];
    }
    var more := |rows| > most;
    if more {
      assert SlotsOf(entries[..most]) == rows[..most];
      return Success((entries[..most], Cursor(rows[most - 1])));
    }
    assert SlotsOf(entries) == rows[..|rows|];
    return Success((entries, ""));
  }

  // ---------------------------------------------------------------------------
  // Following the cursors
  // ---------------------------------------------------------------------------

  /** Every row of a sane catalog lies behind the empty cursor. */
  lemma StartsBeforeAll(p: Platform, s: Catalog)
    requires Inv(p, s)
    ensures Remaining(s, Slot(Key("", ""), "")) == Slots(s)
  {
    hide Inv, Slots;
    forall slot <- Slots(s) ensures SlotLess(Slot(Key("", ""), ""), slot) { GenerationIsNamed(p, s, slot); }
  }

  lemma GenerationIsNamed(p: Platform, s: Catalog, slot: Slot)
    requires Inv(p, s) && slot in Slots(s)
    ensures slot.generation != ""
  {
    RowIsValid(p, s, slot);
    assert RowAt(s, slot).binding.generation == slot.generation;
  }

  /** What is left behind the last row of a page. */
  lemma RestOfPage(s: Catalog, start: Slot, n: nat, page: seq<Slot>)
    requires n >= 1 && FirstRows(Remaining(s, start), n, page) && |Remaining(s, start)| > |page| && page != []
    ensures var rest := Remaining(s, page[|page| - 1]);
            && (forall x :: x in Remaining(s, start) <==> x in page || x in rest)
            && (forall i :: 0 <= i < |page| ==> page[i] !in rest)
            && (forall x <- rest :: forall i :: 0 <= i < |page| ==> SlotLess(page[i], x))
            && rest < Remaining(s, start)
  {
    var all, last := Remaining(s, start), page[|page| - 1];
    var rest := Remaining(s, last);
    forall x <- rest ensures x in all { SlotTransitive(start, last, x); }
    forall x <- rest, i | 0 <= i < |page| ensures SlotLess(page[i], x) {
      if i < |page| - 1 { SlotTransitive(page[i], last, x); }
    }
    forall i | 0 <= i < |page| ensures page[i] !in rest {
      if page[i] in rest { SlotIrreflexive(page[i]); }
    }
  }

  /** A page continues what was visited before it. */
  lemma Joined(s: Catalog, slots: seq<Slot>, start: Slot, n: nat, page: seq<Slot>)
    requires Ascending(slots) && FirstRows(Remaining(s, start), n, page)
    requires forall x <- Remaining(s, start) :: forall i :: 0 <= i < |slots| ==> SlotLess(slots[i], x)
    ensures Ascending(slots + page)
  {
    hide SlotLess, Remaining;
  }

  /** A page with nothing behind it is the last one. */
  lemma NothingLeft(s: Catalog, start: Slot, n: nat, page: seq<Slot>)
    requires FirstRows(Remaining(s, start), n, page) && |Remaining(s, start)| <= |page|
    ensures forall x <- Remaining(s, start) :: x in page
  {
    var all := Remaining(s, start);
    var members := set i | 0 <= i < |page| :: page[i];
    hide SlotLess, Remaining;
    RowCount(page);
    SameSubset(members, all);
  }

  lemma {:induction false} SameSubset(a: set<Slot>, b: set<Slot>)
    requires a <= b && |b| <= |a|
    ensures a == b
    decreases a
  {
    if a == {} {
      assert b == {};
    } else {
      var x :| x in a;
      SameSubset(a - {x}, b - {x});
    }
  }

  /** Some rows were visited in order, and exactly the rows behind a start are left. */
  ghost predicate Visited(s: Catalog, slots: seq<Slot>, start: Slot) {
    && Ascending(slots) && (forall x :: x in Slots(s) <==> x in slots || x in Remaining(s, start))
    && (forall x <- Remaining(s, start) :: forall i :: 0 <= i < |slots| ==> SlotLess(slots[i], x))
  }

  lemma PageVisited(s: Catalog, slots: seq<Slot>, start: Slot, n: nat, page: seq<Slot>)
    requires n >= 1 && Visited(s, slots, start) && FirstRows(Remaining(s, start), n, page)
             && |Remaining(s, start)| > |page| && page != []
    ensures Visited(s, slots + page, page[|page| - 1]) && Remaining(s, page[|page| - 1]) < Remaining(s, start)
  {
    hide SlotLess, Slots, FirstRows, Ascending, Remaining;
    Joined(s, slots, start, n, page);
    RestOfPage(s, start, n, page);
  }

  lemma LastPageVisited(s: Catalog, slots: seq<Slot>, start: Slot, n: nat, page: seq<Slot>)
    requires Visited(s, slots, start) && FirstRows(Remaining(s, start), n, page) && |Remaining(s, start)| <= |page|
    ensures Ascending(slots + page) && forall x :: x in slots + page <==> x in Slots(s)
  {
    hide SlotLess, Slots, Ascending, Remaining;
    Joined(s, slots, start, n, page);
    NothingLeft(s, start, n, page);
    forall x | x in page ensures x in Slots(s) {
      var i :| 0 <= i < |page| && page[i] == x;
    }
  }

  lemma CursorStarts(slot: Slot)
    requires Nameable(slot)
    ensures Cursor(slot) != "" && Start(Cursor(slot)) == Some(slot)
  {
    hide Cursor, Split;
    CursorNamesSlot(slot);
  }

  /**
   * Starting from the empty cursor and following each page's cursor ends, and visits every current and retained
   * generation exactly once, in order, whatever the page limit.
   */
  method VisitAll(p: Platform, s: Catalog, limit: int) returns (rows: seq<Listed>)
    requires Inv(p, s) && forall slot <- Slots(s) :: Nameable(slot)
    ensures Ascending(SlotsOf(rows)) && (forall slot :: slot in SlotsOf(rows) <==> slot in Slots(s))
    ensures forall i :: 0 <= i < |rows| ==> SlotOf(rows[i]) in Slots(s) && rows[i] == RowAt(s, SlotOf(rows[i]))
  {
    hide Inv, SlotLess, Slots, RowAt, SlotOf, Split, Nameable, Cursor, Visited, FirstRows, Remaining, Ascending, Start;
    rows := [];
    var cursor := "";
    ghost var start := Slot(Key("", ""), "");
    NothingVisited(p, s);
    assert SlotsOf(rows) == [];
    while true
      invariant Start(cursor) == Some(start) && Visited(s, SlotsOf(rows), start)
      invariant forall i :: 0 <= i < |rows| ==> SlotOf(rows[i]) in Slots(s) && rows[i] == RowAt(s, SlotOf(rows[i]))
      decreases Remaining(s, start)
    {
      var r := ListPage(p, s, cursor, limit);
      ghost var page := SlotsOf(r.value.0);
      assert SlotsOf(rows + r.value.0) == SlotsOf(rows) + page;
      if r.value.1 == "" {
        if |Remaining(s, start)| > |page| { CursorStarts(page[|page| - 1]); }
        LastPageVisited(s, SlotsOf(rows), start, PageLimit(limit), page);
        return rows + r.value.0;
      }
      CursorStarts(page[|page| - 1]);
      PageVisited(s, SlotsOf(rows), start, PageLimit(limit), page);
      rows, cursor, start := rows + r.value.0, r.value.1, page[|page| - 1];
    }
  }

  lemma NothingVisited(p: Platform, s: Catalog)
    requires Inv(p, s)
    ensures Start("") == Some(Slot(Key("", ""), "")) && Visited(s, [], Slot(Key("", ""), ""))
  {
    hide Inv, Slots, SlotLess, Remaining;
    StartsBeforeAll(p, s);
  }
}
