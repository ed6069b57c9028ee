/**
 * The invariant of the plugin-data catalog, and the proof that every transaction keeps it.
 */
module CatalogInvariant {
  import opened Outcomes
  import opened ControlRows
  import opened DataCatalog

  ghost predicate ForeignKeys(s: Catalog) {
    && (forall key <- s.bindings :: key in s.records)
    && (forall slot <- s.history :: slot.key in s.records)
    && (forall r <- s.resources :: r.Plugin() in s.records)
  }

  /** No generation of one owner is held twice, whether by bindings or by history rows. */
  ghost predicate GenerationsUnique(bindings: map<Key, Binding>, history: map<Slot, HistoryRow>) {
    && (forall a <- bindings, b <- bindings ::
          a.owner == b.owner && bindings[a].generation == bindings[b].generation ==> a == b)
    && (forall a <- bindings, h <- history :: a.owner == h.key.owner ==> bindings[a].generation != h.generation)
    && (forall g <- history, h <- history :: g.key.owner == h.key.owner && g.generation == h.generation ==> g == h)
  }

  ghost predicate HistoryReadable(p: Platform, history: map<Slot, HistoryRow>) {
    forall slot <- history :: HistoryDecodes(p, slot, history[slot])
  }

  /**
   * An installed instance's binding is active and has the shape its manifest declares; an uninstalled one's is
   * retained.
   */
  ghost predicate BindingMatches(p: Platform, key: Key, r: PluginRecord, b: Binding) {
    && b.instance == key.instance && ValidBinding(b)
    && if Live(r) then b.state.Active? && DeclaredHash(p, r.pkg) == Some(b.shapeHash) else b.state.Retained?
  }

  /** The generation names data that the instance still holds. */
  ghost predicate Held(key: Key, b: Option<Binding>, history: map<Slot, HistoryRow>, generation: string) {
    (b.Some? && b.value.generation == generation) || Slot(key, generation) in history
  }

  /** Every version in the list that names data names data the instance holds. */
  ghost predicate VersionsHeld(key: Key, versions: seq<PackageVersion>, b: Option<Binding>,
                               history: map<Slot, HistoryRow>) {
    forall v <- versions :: v.generation == "" || Held(key, b, history, v.generation)
  }

  ghost predicate RecordFits(p: Platform, key: Key, r: PluginRecord) {
    r.owner == key.owner && r.instance == key.instance && Readable(p, r)
  }

  function BindingAt(s: Catalog, key: Key): Option<Binding> {
    if key in s.bindings then Some(s.bindings[key]) else None
  }

  /** One instance's own rows agree with each other. */
  ghost predicate RowFits(p: Platform, key: Key, r: PluginRecord, b: Option<Binding>, history: map<Slot, HistoryRow>) {
    && RecordFits(p, key, r)
    && (b.Some? ==> BindingMatches(p, key, r, b.value))
    && (Live(r) ==> VersionsHeld(key, r.versions, b, history))
  }

  ghost predicate RowsFit(p: Platform, s: Catalog) {
    forall key <- s.records :: RowFits(p, key, s.records[key], BindingAt(s, key), s.history)
  }

  ghost predicate Inv(p: Platform, s: Catalog) {
    ForeignKeys(s) && GenerationsUnique(s.bindings, s.history) && HistoryReadable(p, s.history) && RowsFit(p, s)
  }

  ghost predicate Unbound(s: Catalog, owner: string, generation: string) {
    forall key <- s.bindings :: key.owner == owner ==> s.bindings[key].generation != generation
  }

  /** A generation no binding and no history row of the owner holds. */
  ghost predicate FreshGeneration(s: Catalog, owner: string, generation: string) {
    && Unbound(s, owner, generation)
    && (forall slot <- s.history :: slot.key.owner == owner ==> slot.generation != generation)
  }

  // ---------------------------------------------------------------------------
  // The row changes the transactions are made of
  // ---------------------------------------------------------------------------

  /** A generation bound next to others without a clash was unused. */
  lemma TakenIsFresh(s: Catalog, key: Key, b: Binding)
    requires key !in s.bindings && GenerationsUnique(s.bindings[key := b], s.history)
    ensures FreshGeneration(s, key.owner, b.generation)
  {
    var bindings := s.bindings[key := b];
    forall k <- s.bindings | k.owner == key.owner ensures s.bindings[k].generation != b.generation {
      assert bindings[k] == s.bindings[k] && bindings[key] == b;
    }
    forall slot <- s.history | slot.key.owner == key.owner ensures slot.generation != b.generation {
      assert bindings[key] == b;
    }
  }

  /** No row but the instance's own binding holds the generation. */
  ghost predicate UnusedElsewhere(s: Catalog, key: Key, generation: string) {
    FreshGeneration(s.(bindings := s.bindings - {key}), key.owner, generation)
  }

  lemma UnusedIsUnique(s: Catalog, key: Key, b: Binding)
    requires GenerationsUnique(s.bindings, s.history)
    ensures GenerationsUnique(s.bindings[key := b], s.history) <==> UnusedElsewhere(s, key, b.generation)
  {
    var bindings, others := s.bindings[key := b], s.bindings - {key};
    assert forall k :: k in others ==> bindings[k] == others[k];
    if GenerationsUnique(bindings, s.history) {
      assert others[key := b] == bindings;
      TakenIsFresh(s.(bindings := others), key, b);
    }
  }

  /** A generation in use is held by nobody else. */
  lemma OwnIsUnused(s: Catalog, key: Key)
    requires GenerationsUnique(s.bindings, s.history)
    ensures key in s.bindings ==> UnusedElsewhere(s, key, s.bindings[key].generation)
  {
    if key in s.bindings {
      assert s.bindings[key := s.bindings[key]] == s.bindings;
      UnusedIsUnique(s, key, s.bindings[key]);
    }
  }

  lemma RowAt(p: Platform, s: Catalog, key: Key)
    requires Inv(p, s) && key in s.records
    ensures RowFits(p, key, s.records[key], BindingAt(s, key), s.history)
  {
  }

  /** Replacing an instance's record and binding, the binding keeping its generation or taking one nobody else holds. */
  lemma PutRowKeeps(p: Platform, s: Catalog, key: Key, r: PluginRecord, b: Binding)
    requires Inv(p, s)
    requires RowFits(p, key, r, Some(b), s.history)
    requires UnusedElsewhere(s, key, b.generation) || (key in s.bindings && s.bindings[key].generation == b.generation)
    ensures Inv(p, s.(records := s.records[key := r], bindings := s.bindings[key := b]))
  {
    hide BindingMatches, RecordFits, VersionsHeld, HistoryDecodes;
    var s' := s.(records := s.records[key := r], bindings := s.bindings[key := b]);
    UnusedIsUnique(s, key, b);
    OwnIsUnused(s, key);
    forall k <- s'.records ensures RowFits(p, k, s'.records[k], BindingAt(s', k), s'.history) {
      assert k != key ==> BindingAt(s', k) == BindingAt(s, k);
    }
  }

  /** Replacing only the record of an instance. */
  lemma PutRecordKeeps(p: Platform, s: Catalog, key: Key, r: PluginRecord)
    requires Inv(p, s)
    requires RowFits(p, key, r, BindingAt(s, key), s.history)
    ensures Inv(p, s.(records := s.records[key := r]))
  {
    hide BindingMatches, RecordFits, VersionsHeld, HistoryDecodes;
    var s' := s.(records := s.records[key := r]);
    forall k <- s'.records ensures RowFits(p, k, s'.records[k], BindingAt(s', k), s'.history) {
      assert BindingAt(s', k) == BindingAt(s, k);
    }
  }

  /** Dropping the data of instances that are not installed. */
  lemma DropDataKeeps(p: Platform, s: Catalog, keys: set<Key>)
    requires Inv(p, s)
    requires forall key <- keys :: key in s.records ==> !Live(s.records[key])
    ensures Inv(p, DropData(s, keys))
  {
    hide BindingMatches, RecordFits, HistoryDecodes;
    var s' := DropData(s, keys);
    forall k <- s'.records ensures RowFits(p, k, s'.records[k], BindingAt(s', k), s'.history) {
      assert RowFits(p, k, s.records[k], BindingAt(s, k), s.history);
    }
  }

  /** Taking the binding, but not the history, of an instance that is not installed; its generation is then free. */
  lemma DropBindingKeeps(p: Platform, s: Catalog, key: Key)
    requires Inv(p, s)
    requires key in s.bindings && !Live(s.records[key])
    ensures Inv(p, s.(bindings := s.bindings - {key}))
    ensures FreshGeneration(s.(bindings := s.bindings - {key}), key.owner, s.bindings[key].generation)
  {
    hide BindingMatches, RecordFits, VersionsHeld, HistoryDecodes;
    var s' := s.(bindings := s.bindings - {key});
    forall k <- s'.records ensures RowFits(p, k, s'.records[k], BindingAt(s', k), s'.history) {
      assert k != key ==> BindingAt(s', k) == BindingAt(s, k);
      assert RowFits(p, k, s.records[k], BindingAt(s, k), s.history);
    }
  }

  lemma CascadeKeeps(p: Platform, s: Catalog, key: Key)
    requires Inv(p, s)
    ensures Inv(p, Cascade(s, key))
  {
    hide BindingMatches, RecordFits, HistoryDecodes;
    var s' := Cascade(s, key);
    forall k <- s'.records ensures RowFits(p, k, s'.records[k], BindingAt(s', k), s'.history) {
      assert RowFits(p, k, s.records[k], BindingAt(s, k), s.history);
    }
  }

  // ---------------------------------------------------------------------------
  // The transactions
  // ---------------------------------------------------------------------------

  /** The tables an install starts from: a tombstone it does not reactivate goes with all its rows. */
  function InstallBase(s: Catalog, key: Key, expected: Option<Binding>): Catalog {
    if expected.None? then Cascade(s, key) else s
  }

  /** What a caller of an install can check: a new generation is unused, and every listed version names held data. */
  ghost predicate InstallFits(s: Catalog, key: Key, record: PluginRecord, expected: Option<Binding>, next: Binding) {
    var base := InstallBase(s, key, expected);
    && (expected.None? ==> FreshGeneration(base, key.owner, next.generation))
    && VersionsHeld(key, record.versions, Some(next), base.history)
  }

  /** The row changes a committed install consists of. */
  lemma InstallEffect(p: Platform, s: Catalog, owner: string, record: PluginRecord, expected: Option<Binding>,
                      next: Binding, shape: Shape, now: Time)
    requires Inv(p, s) && Install(p, s, owner, record, expected, next, shape, now).Success?
    ensures var key := Key(owner, record.instance);
            var base := InstallBase(s, key, expected);
            var (s', stored) := Install(p, s, owner, record, expected, next, shape, now).value;
            && s' == base.(records := base.records[key := stored], bindings := base.bindings[key := next])
            && RecordFits(p, key, stored) && Live(stored) && stored.versions == record.versions
            && BindingMatches(p, key, stored, next)
            && (expected.None? ==> key !in base.bindings)
            && (expected.Some? ==> BindingAt(s, key) == expected && expected.value.generation == next.generation)
  {
    hide GenerationsUnique, HistoryReadable, RowsFit, ValidBinding, Readable, Blank;
    var key := Key(owner, record.instance);
    if expected.None? && key !in s.records { CascadeOfNothing(s, key); }
  }

  lemma CascadeOfNothing(s: Catalog, key: Key)
    requires ForeignKeys(s) && key !in s.records
    ensures Cascade(s, key) == s
  {
    var left := Cascade(s, key);
    assert left.records == s.records && left.bindings == s.bindings;
    assert left.history == s.history && left.resources == s.resources;
  }

  /** An install keeps the invariant exactly when its generation and its version list fit; it checks neither. */
  lemma InstallKeepsIff(p: Platform, s: Catalog, owner: string, record: PluginRecord, expected: Option<Binding>,
                        next: Binding, shape: Shape, now: Time)
    requires Inv(p, s)
    ensures var r := Install(p, s, owner, record, expected, next, shape, now);
            r.Success? ==> (Inv(p, r.value.0) <==> InstallFits(s, Key(owner, record.instance), record, expected, next))
  {
    hide Install, HistoryReadable, RowsFit, RecordFits, BindingMatches, VersionsHeld, Cascade;
    var r := Install(p, s, owner, record, expected, next, shape, now);
    if r.Success? {
      var key := Key(owner, record.instance);
      var base := InstallBase(s, key, expected);
      InstallEffect(p, s, owner, record, expected, next, shape, now);
      CascadeKeeps(p, s, key);
      if InstallFits(s, key, record, expected, next) { PutRowKeeps(p, base, key, r.value.1, next); }
      if Inv(p, r.value.0) {
        RowAt(p, r.value.0, key);
        if expected.None? { TakenIsFresh(base, key, next); }
      }
    }
  }

  /**
   * An uninstall keeps the invariant exactly when the retention deadline, as its column holds it, lies after the stored
   * time of the uninstall: the deadline is stored unchecked, and every later read of the binding refuses one that does
   * not. A deadline in the past fails, and so does one beyond the range of the column.
   */
  lemma UninstallKeepsIff(p: Platform, s: Catalog, owner: string, instance: string, deleteData: bool,
                          expectedRevision: nat, retainUntil: Option<Time>, now: Time)
    requires Inv(p, s)
    ensures var r := Uninstall(p, s, owner, instance, deleteData, expectedRevision, retainUntil, now);
            r.Success? ==>
              (Inv(p, r.value.0) <==>
               deleteData || Key(owner, instance) !in s.bindings || retainUntil.None?
               || Nanos(now) < Nanos(retainUntil.value))
  {
    hide GenerationsUnique, HistoryReadable, RowsFit, Nanos, Dated;
    var r := Uninstall(p, s, owner, instance, deleteData, expectedRevision, retainUntil, now);
    if r.Success? {
      var key := Key(owner, instance);
      var deleted := r.value.0.records[key];
      RowAt(p, s, key);
      if key in s.bindings {
        var b := s.bindings[key].(state := Retained, revision := s.bindings[key].revision + 1,
                                  retainedAt := Some(Nanos(now)),
                                  expiresAt := if deleteData then None else Column(retainUntil));
        if ValidBinding(b) {
          PutRowKeeps(p, s, key, deleted, b);
          var s' := s.(records := s.records[key := deleted], bindings := s.bindings[key := b]);
          DropDataKeeps(p, s', {key});
          assert s'.bindings - {key} == s.bindings - {key};
        } else if Inv(p, r.value.0) {
          RowAt(p, r.value.0, key);
        }
      } else {
        PutRecordKeeps(p, s, key, deleted);
        DropDataKeeps(p, s.(records := s.records[key := deleted]), {key});
      }
    }
  }

  /** An import keeps the invariant exactly when the generation it brings is held by nobody else. */
  lemma SwapImportKeepsIff(p: Platform, s: Catalog, owner: string, expectedRevision: nat, expected: Option<Binding>,
                           next: Binding, shape: Shape, now: Time)
    requires Inv(p, s)
    ensures var r := SwapImport(p, s, owner, expectedRevision, expected, next, shape, now);
            r.Success? ==> (Inv(p, r.value) <==> UnusedElsewhere(s, Key(owner, next.instance), next.generation))
  {
    hide GenerationsUnique, HistoryReadable, RowsFit, ValidBinding, UnusedElsewhere;
    var r := SwapImport(p, s, owner, expectedRevision, expected, next, shape, now);
    if r.Success? {
      var key := Key(owner, next.instance);
      RowAt(p, s, key);
      UnusedIsUnique(s, key, next);
      if UnusedElsewhere(s, key, next.generation) { PutRowKeeps(p, s, key, r.value.records[key], next); }
    }
  }

  lemma BindRetainedKeeps(p: Platform, s: Catalog, owner: string, expected: Binding, target: string,
                          expectedRevision: nat, shape: Shape, now: Time)
    requires Inv(p, s)
    ensures var r := BindRetained(p, s, owner, expected, target, expectedRevision, shape, now);
            r.Success? ==> Inv(p, r.value.0)
  {
    hide GenerationsUnique, HistoryReadable, RowsFit, Trim;
    var r := BindRetained(p, s, owner, expected, target, expectedRevision, shape, now);
    if r.Success? {
      var source, key := Key(owner, expected.instance), Key(owner, r.value.1.instance);
      RowAt(p, s, source);
      RowAt(p, s, key);
      DropBindingKeeps(p, s, source);
      TrimmedIsNotBlank(target);
      PutRowKeeps(p, s.(bindings := s.bindings - {source}), key, r.value.0.records[key], r.value.1);
    }
  }

  lemma DeleteRetainedKeeps(p: Platform, s: Catalog, owner: string, expected: Binding)
    requires Inv(p, s)
    ensures var r := DeleteRetained(s, owner, expected); r.Success? ==> Inv(p, r.value)
  {
    hide GenerationsUnique, HistoryReadable, RowsFit, ValidBinding, VersionsHeld;
    var key := Key(owner, expected.instance);
    if DeleteRetained(s, owner, expected).Success? {
      RowAt(p, s, key);
      DropDataKeeps(p, s, {key});
    }
  }

  lemma {:induction false} ExpiredIsRetained(s: Catalog, owner: string, now: Time, expected: seq<Binding>)
    requires CheckExpired(s, owner, now, expected).Pass?
    ensures forall b <- expected ::
              && BindingAt(s, Key(owner, b.instance)) == Some(b) && b.state.Retained?
              && b.expiresAt.Some? && b.expiresAt.value <= now
  {
    if expected != [] {
      ExpiredIsRetained(s, owner, now, expected[1..]);
      assert forall b <- expected :: b == expected[0] || b in expected[1..];
    }
  }

  lemma CleanupKeeps(p: Platform, s: Catalog, owner: string, now: Time, expected: seq<Binding>)
    requires Inv(p, s)
    ensures var r := CleanupExpired(s, owner, now, expected); r.Success? ==> Inv(p, r.value)
  {
    hide GenerationsUnique, HistoryReadable, RowsFit, ValidBinding, VersionsHeld;
    if CleanupExpired(s, owner, now, expected).Success? {
      ExpiredIsRetained(s, owner, now, expected);
      var keys := set b | b in expected :: Key(owner, b.instance);
      forall key <- keys | key in s.records ensures !Live(s.records[key]) {
        var b :| b in expected && key == Key(owner, b.instance);
        RowAt(p, s, key);
      }
      DropDataKeeps(p, s, keys);
    }
  }

  /** Enough about a candidate's version list: what it names besides the package being replaced was named before. */
  ghost predicate DerivedVersions(versions: seq<PackageVersion>, before: seq<PackageVersion>, replaced: string) {
    forall v <- versions | v.pkg.packageHash != replaced && v.generation != "" ::
      exists w <- before :: w.generation == v.generation
  }

  /** The history once a generation goes back into use and the one in use is retained in its place. */
  function MovedHistory(history: map<Slot, HistoryRow>, key: Key, taken: string, left: string,
                        row: HistoryRow): map<Slot, HistoryRow> {
    (history - {Slot(key, taken)})[Slot(key, left) := row]
  }

  lemma UniqueAfterMove(s: Catalog, key: Key, active: Binding, row: HistoryRow)
    requires GenerationsUnique(s.bindings, s.history)
    requires key in s.bindings && s.bindings[key].generation != active.generation
    requires FreshGeneration(s.(history := s.history - {Slot(key, active.generation)}), key.owner, active.generation)
    ensures GenerationsUnique(s.bindings[key := active],
                              MovedHistory(s.history, key, active.generation, s.bindings[key].generation, row))
  {
  }

  lemma OtherRowsFitAfterMove(p: Platform, k: Key, r: PluginRecord, b: Option<Binding>, history: map<Slot, HistoryRow>,
                              key: Key, taken: string, left: string, row: HistoryRow)
    requires RowFits(p, k, r, b, history) && k != key
    ensures RowFits(p, k, r, b, MovedHistory(history, key, taken, left, row))
  {
    hide BindingMatches, RecordFits;
    var history' := MovedHistory(history, key, taken, left, row);
    forall v <- r.versions | Live(r) && v.generation != "" ensures Held(k, b, history', v.generation) {
      assert Held(k, b, history, v.generation);
    }
  }

  /** A generation this instance holds in its history is held nowhere else. */
  lemma ActiveIsFree(s: Catalog, key: Key, generation: string)
    requires GenerationsUnique(s.bindings, s.history)
    requires Slot(key, generation) in s.history || FreshGeneration(s, key.owner, generation)
    ensures FreshGeneration(s.(history := s.history - {Slot(key, generation)}), key.owner, generation)
  {
  }

  /** Moving an instance to another generation while the one it leaves goes into the history. */
  lemma MoveGenerationKeeps(p: Platform, s: Catalog, key: Key, r: PluginRecord, active: Binding, row: HistoryRow)
    requires Inv(p, s)
    requires key in s.bindings && s.bindings[key].generation != active.generation
    requires FreshGeneration(s.(history := s.history - {Slot(key, active.generation)}), key.owner, active.generation)
    requires HistoryDecodes(p, Slot(key, s.bindings[key].generation), row)
    requires RowFits(p, key, r, Some(active),
                     MovedHistory(s.history, key, active.generation, s.bindings[key].generation, row))
    ensures Inv(p, s.(records := s.records[key := r], bindings := s.bindings[key := active],
                      history := MovedHistory(s.history, key, active.generation, s.bindings[key].generation, row)))
  {
    hide RowFits, HistoryDecodes, GenerationsUnique;
    var left := s.bindings[key].generation;
    var s' := s.(records := s.records[key := r], bindings := s.bindings[key := active],
                 history := MovedHistory(s.history, key, active.generation, left, row));
    UniqueAfterMove(s, key, active, row);
    forall k <- s'.records ensures RowFits(p, k, s'.records[k], BindingAt(s', k), s'.history) {
      if k != key {
        OtherRowsFitAfterMove(p, k, s.records[k], BindingAt(s, k), s.history, key, active.generation, left, row);
      }
    }
  }

  /** The row changes a committed upgrade or restore consists of. */
  lemma CommitVersionEffect(p: Platform, s: Catalog, owner: string, expected: PluginRecord, next: PluginRecord,
                            previous: Binding, active: Binding, retained: Option<Binding>, now: Time, external: bool)
    requires CommitVersion(p, s, owner, expected, next, previous, active, retained, now, external).Success?
    ensures var key := Key(owner, expected.instance);
            var stored := CommitVersion(p, s, owner, expected, next, previous, active, retained, now, external).value.1;
            && key in s.records && Live(s.records[key]) && BindingAt(s, key) == Some(previous)
            && previous.generation != active.generation
            && (retained.Some? ==>
                retained.value.generation == active.generation && Slot(key, active.generation) in s.history)
            && (retained.None? ==>
                forall slot <- s.history :: slot.key.owner == owner ==> slot.generation != active.generation)
            && stored.owner == owner && stored.instance == key.instance && Readable(p, stored) && Live(stored)
            && stored.pkg == next.pkg
            && stored.revisions
                == Revisions(expected.revisions.policy, expected.revisions.management + 1,
                             expected.revisions.revokeEpoch + 1)
            && stored.versions == BindPackage(next.versions, s.records[key].pkg.packageHash, previous.generation)
            && BindingMatches(p, key, stored, active)
            && (RecordFits(p, key, s.records[key]) ==>
                  (HistoryDecodes(p, Slot(key, previous.generation),
                                  HistoryRow(s.records[key].(versions := []), previous, Nanos(now)))
                   <==> Nanos(now) > 0))
            && CommitVersion(p, s, owner, expected, next, previous, active, retained, now, external).value.0
               == s.(records := s.records[key := stored], bindings := s.bindings[key := active],
                     history := MovedHistory(s.history, key, active.generation, previous.generation,
                                             HistoryRow(s.records[key].(versions := []), previous, Nanos(now))))
  {
    hide UsesGeneration, Blank, Nanos, Dated;
    var key := Key(owner, expected.instance);
    assert retained.None? ==> s.history - {Slot(key, active.generation)} == s.history;
  }

  /** The versions a version change lists, each with data the instance holds afterwards. */
  ghost predicate ChangeNamesHeld(s: Catalog, key: Key, current: PluginRecord, versions: seq<PackageVersion>,
                                  previous: Binding, active: Binding) {
    forall v <- versions ::
      || v.generation == "" || v.pkg.packageHash == current.pkg.packageHash
      || v.generation == active.generation || v.generation == previous.generation
      || Slot(key, v.generation) in s.history
  }

  /** What a caller of a version change can check: the time, the new generation, and the version list. */
  ghost predicate ChangeFits(s: Catalog, key: Key, next: PluginRecord, previous: Binding, active: Binding,
                             retained: Option<Binding>, now: Time) {
    && Nanos(now) > 0 && (retained.None? ==> Unbound(s, key.owner, active.generation))
    && (key in s.records ==> ChangeNamesHeld(s, key, s.records[key], next.versions, previous, active))
  }

  lemma BoundVersionsFit(s: Catalog, key: Key, current: PluginRecord, versions: seq<PackageVersion>, previous: Binding,
                         active: Binding, row: HistoryRow)
    ensures VersionsHeld(key, BindPackage(versions, current.pkg.packageHash, previous.generation), Some(active),
                         MovedHistory(s.history, key, active.generation, previous.generation, row))
            <==> ChangeNamesHeld(s, key, current, versions, previous, active)
  {
    var history := MovedHistory(s.history, key, active.generation, previous.generation, row);
    var bound := BindPackage(versions, current.pkg.packageHash, previous.generation);
    forall i | 0 <= i < |versions|
      ensures (bound[i].generation == "" || Held(key, Some(active), history, bound[i].generation))
              <==> (|| versions[i].generation == "" || versions[i].pkg.packageHash == current.pkg.packageHash
                    || versions[i].generation == active.generation || versions[i].generation == previous.generation
                    || Slot(key, versions[i].generation) in s.history)
    {
      assert Slot(key, previous.generation) in history;
    }
    if VersionsHeld(key, bound, Some(active), history) {
      forall i | 0 <= i < |versions|
        ensures bound[i].generation == "" || Held(key, Some(active), history, bound[i].generation) {
        assert bound[i] in bound;
      }
    }
  }

  /**
   * An upgrade or restore keeps the invariant exactly when its time is stored as a positive number, its new generation
   * is unused and its version list names held data. The time is refused only if it is the zero time, yet no history row
   * can be read back whose stored time is not positive.
   */
  lemma CommitVersionKeepsIff(p: Platform, s: Catalog, owner: string, expected: PluginRecord, next: PluginRecord,
                              previous: Binding, active: Binding, retained: Option<Binding>, now: Time, external: bool)
    requires Inv(p, s)
    ensures var r := CommitVersion(p, s, owner, expected, next, previous, active, retained, now, external);
            r.Success? ==>
              (Inv(p, r.value.0) <==>
               ChangeFits(s, Key(owner, expected.instance), next, previous, active, retained, now))
  {
    hide CommitVersion, VersionsHeld, Readable, HistoryDecodes, BindPackage, ChangeNamesHeld, RowsFit, Nanos;
    var r := CommitVersion(p, s, owner, expected, next, previous, active, retained, now, external);
    if r.Success? {
      CommitVersionEffect(p, s, owner, expected, next, previous, active, retained, now, external);
      var key := Key(owner, expected.instance);
      var current, stored := s.records[key], r.value.1;
      var row := HistoryRow(current.(versions := []), previous, Nanos(now));
      RowAt(p, s, key);
      BoundVersionsFit(s, key, current, next.versions, previous, active, row);
      if ChangeFits(s, key, next, previous, active, retained, now) {
        ActiveIsFree(s, key, active.generation);
        MoveGenerationKeeps(p, s, key, stored, active, row);
      }
      if Inv(p, r.value.0) {
        RowAt(p, r.value.0, key);
        assert Slot(key, previous.generation) in r.value.0.history;
        BoundOnce(s, r.value.0, key, active);
      }
    }
  }

  /** If no two bindings share a generation afterwards, no other binding had the new one before. */
  lemma BoundOnce(s: Catalog, s': Catalog, key: Key, active: Binding)
    requires key in s.bindings && s.bindings[key].generation != active.generation
    requires s'.bindings == s.bindings[key := active] && GenerationsUnique(s'.bindings, s'.history)
    ensures Unbound(s, key.owner, active.generation)
  {
    forall k <- s.bindings | k.owner == key.owner ensures s.bindings[k].generation != active.generation {
      assert s'.bindings[key] == active && (k != key ==> s'.bindings[k] == s.bindings[k]);
    }
  }

  /** A version list derived from the current one names held data. */
  lemma DerivedNamesHeld(s: Catalog, key: Key, versions: seq<PackageVersion>, previous: Binding, active: Binding)
    requires key in s.records && VersionsHeld(key, s.records[key].versions, Some(previous), s.history)
    requires DerivedVersions(versions, s.records[key].versions, s.records[key].pkg.packageHash)
    ensures ChangeNamesHeld(s, key, s.records[key], versions, previous, active)
  {
    forall v <- versions | v.generation != "" && v.pkg.packageHash != s.records[key].pkg.packageHash
      ensures v.generation == previous.generation || Slot(key, v.generation) in s.history
    {
      var w :| w in s.records[key].versions && w.generation == v.generation;
    }
  }

  /** A version list built for a package switch never lists the package being switched to. */
  ghost predicate SwitchVersions(next: PluginRecord, existing: PluginRecord) {
    && DerivedVersions(next.versions, existing.versions, existing.pkg.packageHash)
    && forall v <- next.versions :: v.pkg.packageHash != next.pkg.packageHash
  }

  /**
   * The versions a put lists, each with data the instance holds once the replaced package is bound to the dataset in
   * use.
   */
  ghost predicate PutNamesHeld(s: Catalog, key: Key, record: PluginRecord, existing: PluginRecord) {
    forall v <- record.versions ::
      || v.generation == "" || Held(key, BindingAt(s, key), s.history, v.generation)
      || (record.pkg.packageHash != existing.pkg.packageHash && v.pkg.packageHash == existing.pkg.packageHash)
  }

  /**
   * What a caller of a package put can check: a dataset in use needs a live record of its shape, and a live record's
   * versions name held data.
   */
  ghost predicate PutFits(p: Platform, s: Catalog, key: Key, record: PluginRecord) {
    && (key in s.bindings ==> Live(record) && DeclaredHash(p, record.pkg) == Some(s.bindings[key].shapeHash))
    && (key in s.records && Live(record) ==> PutNamesHeld(s, key, record, s.records[key]))
  }

  lemma SwitchedVersionsFit(s: Catalog, key: Key, next: PluginRecord, existing: PluginRecord)
    requires BindVersionSwitch(s, key, next, existing).Success?
    ensures VersionsHeld(key, BindVersionSwitch(s, key, next, existing).value.versions, BindingAt(s, key), s.history)
            <==> PutNamesHeld(s, key, next, existing)
  {
    hide ValidBinding;
    var binding, bound := BindingAt(s, key), BindVersionSwitch(s, key, next, existing).value.versions;
    forall i | 0 <= i < |next.versions|
      ensures |bound| == |next.versions|
      ensures bound[i] in bound && next.versions[i] in next.versions
      ensures (bound[i].generation == "" || Held(key, binding, s.history, bound[i].generation))
              <==> (|| next.versions[i].generation == "" || Held(key, binding, s.history, next.versions[i].generation)
                    || (next.pkg.packageHash != existing.pkg.packageHash
                        && next.versions[i].pkg.packageHash == existing.pkg.packageHash))
    {
    }
  }

  lemma PutSwitchedKeepsIff(p: Platform, s: Catalog, key: Key, next: PluginRecord, stored: PluginRecord)
    requires Inv(p, s)
    requires key in s.records && Live(s.records[key])
    requires next.owner == key.owner && next.instance == key.instance
    requires BindVersionSwitch(s, key, next, s.records[key]) == Success(stored) && Readable(p, stored)
    ensures Inv(p, s.(records := s.records[key := stored])) <==> PutFits(p, s, key, next)
  {
    hide GenerationsUnique, HistoryReadable, RowsFit, VersionsHeld, Readable, ValidBinding, PutNamesHeld, DeclaredHash;
    RowAt(p, s, key);
    SwitchedVersionsFit(s, key, next, s.records[key]);
    var s' := s.(records := s.records[key := stored]);
    if PutFits(p, s, key, next) { PutRecordKeeps(p, s, key, stored); }
    if Inv(p, s') { RowAt(p, s', key); }
  }

  /**
   * A package put outside a data conversion keeps the invariant exactly when the record it stores fits the rows it is
   * stored over: the put itself compares neither shapes nor version lists, and does not clear a deletion time.
   */
  lemma PutPluginKeepsIff(p: Platform, s: Catalog, owner: string, record: PluginRecord, now: Time)
    requires Inv(p, s)
    ensures var r, key := PutPlugin(p, s, owner, record, now), Key(owner, record.instance);
            r.Success? ==> (Inv(p, r.value.0) <==> PutFits(p, s, key, record))
  {
    hide Inv, DeclaredHash, Readable, BindVersionSwitch, Held, BindingAt;
    var r, key := PutPlugin(p, s, owner, record, now), Key(owner, record.instance);
    if r.Success? {
      var prepared := PreparePut(p, owner, record, Some(s.records[key]), now).value;
      PutSwitchedKeepsIff(p, s, key, prepared, r.value.1);
    }
  }

  lemma UpdateExternalKeepsIff(p: Platform, s: Catalog, owner: string, record: PluginRecord, expectedRevision: nat,
                               now: Time)
    requires Inv(p, s)
    ensures var r, key := UpdateExternal(p, s, owner, record, expectedRevision, now), Key(owner, record.instance);
            r.Success? ==> (Inv(p, r.value.0) <==> PutFits(p, s, key, record))
  {
    hide Inv, DeclaredHash, Readable, BindVersionSwitch, Held, BindingAt;
    var r, key := UpdateExternal(p, s, owner, record, expectedRevision, now), Key(owner, record.instance);
    if r.Success? {
      var prepared := PreparePut(p, owner, record, Some(s.records[key]), now).value;
      PutSwitchedKeepsIff(p, s, key, prepared, r.value.1);
    }
  }

  /** A live record whose version list was built from the stored one, of the stored package's shape, fits. */
  lemma DerivedRecordFits(p: Platform, s: Catalog, key: Key, record: PluginRecord)
    requires Inv(p, s) && key in s.records && Live(s.records[key]) && Live(record)
    requires SwitchVersions(record, s.records[key])
    requires key in s.bindings ==> DeclaredHash(p, record.pkg) == Some(s.bindings[key].shapeHash)
    ensures PutFits(p, s, key, record)
  {
    hide GenerationsUnique, HistoryReadable, RowsFit, Readable, ValidBinding, DeclaredHash;
    var existing := s.records[key];
    RowAt(p, s, key);
    forall v <- record.versions
      ensures || v.generation == "" || Held(key, BindingAt(s, key), s.history, v.generation)
              || (record.pkg.packageHash != existing.pkg.packageHash && v.pkg.packageHash == existing.pkg.packageHash)
    {
      if v.generation != "" && v.pkg.packageHash != existing.pkg.packageHash {
        var w :| w in existing.versions && w.generation == v.generation;
      }
    }
  }

  lemma UniqueAfterExchange(bindings: map<Key, Binding>, history: map<Slot, HistoryRow>, a: Key, b: Key, x: Binding,
                            y: Binding)
    requires GenerationsUnique(bindings, history)
    requires a in bindings && b in bindings && a != b && a.owner == b.owner
    requires x.generation == bindings[b].generation && y.generation == bindings[a].generation
    ensures GenerationsUnique(bindings[a := x][b := y], history)
  {
  }

  /** Two instances exchanging generations. */
  lemma ExchangeKeeps(p: Platform, s: Catalog, a: Key, b: Key, ra: PluginRecord, rb: PluginRecord, x: Binding,
                      y: Binding)
    requires Inv(p, s)
    requires a in s.bindings && b in s.bindings && a != b && a.owner == b.owner
    requires x.generation == s.bindings[b].generation && y.generation == s.bindings[a].generation
    requires RowFits(p, a, ra, Some(x), s.history) && RowFits(p, b, rb, Some(y), s.history)
    ensures Inv(p, s.(records := s.records[a := ra][b := rb], bindings := s.bindings[a := x][b := y]))
  {
    hide RowFits, HistoryReadable, GenerationsUnique;
    UniqueAfterExchange(s.bindings, s.history, a, b, x, y);
    var s' := s.(records := s.records[a := ra][b := rb], bindings := s.bindings[a := x][b := y]);
    forall k <- s'.records ensures RowFits(p, k, s'.records[k], BindingAt(s', k), s'.history) {
      assert k != a && k != b ==> BindingAt(s', k) == BindingAt(s, k) && s'.records[k] == s.records[k];
    }
  }

  lemma ReboundVersionsHeld(key: Key, versions: seq<PackageVersion>, before: Binding, after: Binding,
                            history: map<Slot, HistoryRow>)
    requires VersionsHeld(key, versions, Some(before), history)
    ensures VersionsHeld(key, Rebind(versions, before.generation, after.generation), Some(after), history)
  {
    var rebound := Rebind(versions, before.generation, after.generation);
    forall v <- rebound | v.generation != "" ensures Held(key, Some(after), history, v.generation) {
      var i :| 0 <= i < |rebound| && rebound[i] == v;
      assert versions[i] in versions;
    }
  }

  lemma RecoverRetainedKeeps(p: Platform, s: Catalog, owner: string, plan: RecoveryPlan, shape: Shape, clock: Time)
    requires Inv(p, s)
    ensures var r := RecoverRetained(p, s, owner, plan, shape, clock); r.Success? ==> Inv(p, r.value.0)
  {
    hide GenerationsUnique, HistoryReadable, RowsFit, VersionsHeld, Trim, Rebind, Nanos, Dated;
    var r := RecoverRetained(p, s, owner, plan, shape, clock);
    if r.Success? {
      var a, b := Key(owner, plan.source.instance), Key(owner, plan.target.instance);
      RowAt(p, s, a);
      RowAt(p, s, b);
      ReboundVersionsHeld(b, s.records[b].versions, plan.target, r.value.1.active, s.history);
      ReboundReadable(p, s.records[a], plan.source.generation, r.value.1.retained.generation);
      ReboundReadable(p, s.records[b], plan.target.generation, r.value.1.active.generation);
      ExchangeKeeps(p, s, a, b, r.value.0.records[a], r.value.0.records[b], r.value.0.bindings[a],
                    r.value.0.bindings[b]);
    }
  }

  lemma ReboundReadable(p: Platform, r: PluginRecord, previous: string, next: string)
    requires Readable(p, r)
    ensures forall v <- Rebind(r.versions, previous, next) :: p.decode(v.pkg.canonical).Some? && Dated(v.activatedAt)
  {
    var rebound := Rebind(r.versions, previous, next);
    forall v <- rebound ensures p.decode(v.pkg.canonical).Some? && Dated(v.activatedAt) {
      var i :| 0 <= i < |rebound| && rebound[i] == v;
      assert r.versions[i] in r.versions;
    }
  }

  lemma SetEnableStateKeeps(p: Platform, s: Catalog, owner: string, instance: string, state: EnableState,
                            reason: string, now: Time)
    requires Inv(p, s)
    ensures var r := SetEnableState(p, s, owner, instance, state, reason, now); r.Success? ==> Inv(p, r.value.0)
  {
    hide GenerationsUnique, HistoryReadable, RowsFit;
    var r := SetEnableState(p, s, owner, instance, state, reason, now);
    if r.Success? {
      RowAt(p, s, Key(owner, instance));
      PutRecordKeeps(p, s, Key(owner, instance), r.value.1);
    }
  }

  lemma BumpRevokeEpochKeeps(p: Platform, s: Catalog, owner: string, instance: string, now: Time)
    requires Inv(p, s)
    ensures var r := BumpRevokeEpoch(p, s, owner, instance, now); r.Success? ==> Inv(p, r.value.0)
  {
    hide GenerationsUnique, HistoryReadable, RowsFit;
    var r := BumpRevokeEpoch(p, s, owner, instance, now);
    if r.Success? {
      RowAt(p, s, Key(owner, instance));
      PutRecordKeeps(p, s, Key(owner, instance), r.value.1);
    }
  }
}
