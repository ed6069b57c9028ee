/**
 * Every version an installed plugin lists names data of its own package's shape, so that any of them can be brought
 * back in any state of a run.
 */
module CatalogShapes {
  import opened Outcomes
  import opened ControlRows
  import opened DataCatalog
  import opened CatalogInvariant
  import opened FileGrants
  import opened CatalogRuns
  import opened VersionSwitching

  /** The shape of the data an instance holds under a generation. */
  function ShapeOf(key: Key, b: Option<Binding>, history: map<Slot, HistoryRow>, generation: string): Option<string> {
    if b.Some? && b.value.generation == generation then Some(b.value.shapeHash)
    else if Slot(key, generation) in history then Some(history[Slot(key, generation)].binding.shapeHash)
    else None
  }

  ghost predicate VersionShaped(p: Platform, key: Key, v: PackageVersion, b: Option<Binding>,
                                history: map<Slot, HistoryRow>) {
    v.generation == "" || (var h := ShapeOf(key, b, history, v.generation); h.Some? && DeclaredHash(p, v.pkg) == h)
  }

  ghost predicate ListShaped(p: Platform, key: Key, versions: seq<PackageVersion>, b: Option<Binding>,
                             history: map<Slot, HistoryRow>) {
    forall v <- versions :: VersionShaped(p, key, v, b, history)
  }

  ghost predicate RowShaped(p: Platform, s: Catalog, key: Key)
    requires key in s.records
  {
    Live(s.records[key]) ==> ListShaped(p, key, s.records[key].versions, BindingAt(s, key), s.history)
  }

  /** Every listed version of every installed plugin names data of its own package's shape. */
  ghost predicate Shaped(p: Platform, s: Catalog) {
    forall key <- s.records :: RowShaped(p, s, key)
  }

  // ---------------------------------------------------------------------------
  // Instances a step does not touch
  // ---------------------------------------------------------------------------

  ghost predicate SameOthers(s: Catalog, s': Catalog, keys: set<Key>) {
    && (forall k <- s'.records :: k !in keys ==>
          k in s.records && s'.records[k] == s.records[k] && BindingAt(s', k) == BindingAt(s, k))
    && (forall slot <- s.history :: slot.key !in keys ==> slot in s'.history && s'.history[slot] == s.history[slot])
    && (forall slot <- s'.history :: slot.key !in keys ==> slot in s.history)
  }

  lemma ShapedElsewhere(p: Platform, s: Catalog, s': Catalog, keys: set<Key>)
    requires Shaped(p, s) && SameOthers(s, s', keys)
    ensures Shaped(p, s') <==> forall k <- keys :: k in s'.records ==> RowShaped(p, s', k)
  {
    hide DeclaredHash, Live;
    forall k <- s'.records | k !in keys ensures RowShaped(p, s', k) {
      assert RowShaped(p, s, k);
      forall v <- s.records[k].versions | VersionShaped(p, k, v, BindingAt(s, k), s.history)
        ensures VersionShaped(p, k, v, BindingAt(s', k), s'.history) {
        assert Slot(k, v.generation).key == k;
      }
    }
  }

  /** The common case: one instance is touched. */
  lemma ShapedAt(p: Platform, s: Catalog, s': Catalog, key: Key)
    requires Shaped(p, s) && SameOthers(s, s', {key})
    ensures Shaped(p, s') <==> (key in s'.records ==> RowShaped(p, s', key))
  {
    hide SameOthers, RowShaped;
    ShapedElsewhere(p, s, s', {key});
  }

  lemma RowTouched(s: Catalog, key: Key, r: PluginRecord, b: Binding)
    ensures SameOthers(s, s.(records := s.records[key := r], bindings := s.bindings[key := b]), {key})
  {
  }

  lemma RecordTouched(s: Catalog, key: Key, r: PluginRecord)
    ensures SameOthers(s, s.(records := s.records[key := r]), {key})
  {
  }

  lemma DeletedTouched(s: Catalog, key: Key, r: PluginRecord)
    ensures SameOthers(s, s.(records := s.records[key := r], bindings := s.bindings - {key},
                             history := DropHistory(s.history, {key})), {key})
  {
  }

  lemma HistoryTouched(s: Catalog, key: Key, r: PluginRecord, b: Binding, taken: string, left: string, row: HistoryRow)
    ensures SameOthers(s, s.(records := s.records[key := r], bindings := s.bindings[key := b],
                             history := MovedHistory(s.history, key, taken, left, row)), {key})
  {
  }

  lemma TwoTouched(s: Catalog, a: Key, b: Key, records: map<Key, PluginRecord>, bindings: map<Key, Binding>)
    requires forall k <- records :: k != a && k != b ==> k in s.records && records[k] == s.records[k]
    requires bindings - {a, b} == s.bindings - {a, b}
    ensures SameOthers(s, s.(records := records, bindings := bindings), {a, b})
  {
    forall k <- records | k != a && k != b
      ensures BindingAt(s.(records := records, bindings := bindings), k) == BindingAt(s, k) {
      assert k in bindings <==> k in bindings - {a, b};
      assert k in s.bindings <==> k in s.bindings - {a, b};
      if k in bindings { assert (bindings - {a, b})[k] == (s.bindings - {a, b})[k]; }
    }
  }

  // ---------------------------------------------------------------------------
  // Steps without a version list of their own
  // ---------------------------------------------------------------------------

  /** Renaming a dataset, in the list and in the binding alike, keeps every shape. */
  lemma RenamedShaped(p: Platform, key: Key, versions: seq<PackageVersion>, before: Binding, after: Binding,
                      history: map<Slot, HistoryRow>)
    requires ListShaped(p, key, versions, Some(before), history) && before.shapeHash == after.shapeHash
    requires before.generation != "" && Slot(key, after.generation) !in history
    ensures ListShaped(p, key, Rebind(versions, before.generation, after.generation), Some(after), history)
  {
    hide DeclaredHash;
    var renamed := Rebind(versions, before.generation, after.generation);
    forall v <- renamed ensures VersionShaped(p, key, v, Some(after), history) {
      var i :| 0 <= i < |renamed| && renamed[i] == v;
      assert versions[i] in versions && VersionShaped(p, key, versions[i], Some(before), history);
    }
  }

  lemma SwapImportKeepsShapes(p: Platform, s: Catalog, owner: string, revision: nat, expected: Option<Binding>,
                              next: Binding, shape: Shape, now: Time)
    requires Inv(p, s) && Shaped(p, s) && UnusedElsewhere(s, Key(owner, next.instance), next.generation)
    ensures Shaped(p, AfterAlone(s, SwapImport(p, s, owner, revision, expected, next, shape, now)))
  {
    hide GenerationsUnique, HistoryReadable, RowsFit, ListShaped, Rebind, Readable, Dated, DeclaredHash, SameOthers;
    var r := SwapImport(p, s, owner, revision, expected, next, shape, now);
    if r.Success? {
      var key := Key(owner, next.instance);
      RowAt(p, s, key);
      assert RowShaped(p, s, key);
      RowTouched(s, key, r.value.records[key], next);
      ShapedAt(p, s, r.value, key);
      if expected.Some? {
        NotBlankIsNotEmpty(expected.value.generation);
        RenamedShaped(p, key, s.records[key].versions, expected.value, next, s.history);
      } else {
        BoundShaped(p, key, s.records[key].versions, next, s.history);
      }
    }
  }

  lemma NotBlankIsNotEmpty(s: string)
    ensures !Blank(s) ==> s != ""
  {
  }

  /** A list that needed no binding needs none afterwards. */
  lemma BoundShaped(p: Platform, key: Key, versions: seq<PackageVersion>, b: Binding, history: map<Slot, HistoryRow>)
    requires ListShaped(p, key, versions, None, history) && Slot(key, b.generation) !in history
    ensures ListShaped(p, key, versions, Some(b), history)
  {
    hide DeclaredHash;
    forall v <- versions ensures VersionShaped(p, key, v, Some(b), history) {
      assert VersionShaped(p, key, v, None, history);
    }
  }

  lemma BindRetainedKeepsShapes(p: Platform, s: Catalog, owner: string, expected: Binding, target: string,
                                revision: nat, shape: Shape, now: Time)
    requires Inv(p, s) && Shaped(p, s)
    ensures Shaped(p, After(s, BindRetained(p, s, owner, expected, target, revision, shape, now)))
  {
    hide HistoryReadable, RowsFit, ListShaped, Readable, Dated, DeclaredHash, Trim, CheckRecordShape, SameOthers;
    var r := BindRetained(p, s, owner, expected, target, revision, shape, now);
    if r.Success? {
      var source, key := Key(owner, expected.instance), Key(owner, Trim(target));
      RowAt(p, s, source);
      RowAt(p, s, key);
      assert RowShaped(p, s, key);
      assert Slot(key, expected.generation) !in s.history;
      BoundShaped(p, key, s.records[key].versions, r.value.1, s.history);
      TwoTouched(s, source, key, r.value.0.records, r.value.0.bindings);
      ShapedElsewhere(p, s, r.value.0, {source, key});
    }
  }

  lemma RecoverKeepsShapes(p: Platform, s: Catalog, owner: string, plan: RecoveryPlan, shape: Shape, clock: Time)
    requires Inv(p, s) && Shaped(p, s)
    ensures Shaped(p, After(s, RecoverRetained(p, s, owner, plan, shape, clock)))
  {
    hide HistoryReadable, RowsFit, ListShaped, Readable, Dated, DeclaredHash, Trim, CheckRecordShape, Rebind, Nanos,
         SameOthers;
    var r := RecoverRetained(p, s, owner, plan, shape, clock);
    if r.Success? {
      var a, b := Key(owner, plan.source.instance), Key(owner, plan.target.instance);
      RowAt(p, s, a);
      RowAt(p, s, b);
      assert RowShaped(p, s, b);
      NotBlankIsNotEmpty(plan.target.generation);
      assert Slot(b, plan.source.generation) !in s.history;
      RenamedShaped(p, b, s.records[b].versions, plan.target, r.value.1.active, s.history);
      TwoTouched(s, a, b, r.value.0.records, r.value.0.bindings);
      ShapedElsewhere(p, s, r.value.0, {a, b});
    }
  }

  lemma UninstallKeepsShapes(p: Platform, s: Catalog, owner: string, instance: string, deleteData: bool, revision: nat,
                             until: Option<Time>, now: Time)
    requires Shaped(p, s)
    ensures Shaped(p, After(s, Uninstall(p, s, owner, instance, deleteData, revision, until, now)))
  {
    hide ListShaped, Readable, Dated, Nanos, SameOthers;
    var r, key := Uninstall(p, s, owner, instance, deleteData, revision, until, now), Key(owner, instance);
    if r.Success? {
      var deleted := r.value.0.records[key];
      if deleteData {
        DeletedTouched(s, key, deleted);
      } else if key in s.bindings {
        RowTouched(s, key, deleted, r.value.0.bindings[key]);
      } else {
        RecordTouched(s, key, deleted);
      }
      ShapedAt(p, s, r.value.0, key);
    }
  }

  /** Dropping the data of instances that are not installed. */
  lemma DropKeepsShapes(p: Platform, s: Catalog, keys: set<Key>)
    requires Shaped(p, s) && forall k <- keys :: k in s.records ==> !Live(s.records[k])
    ensures Shaped(p, DropData(s, keys))
  {
    hide ListShaped;
    ShapedElsewhere(p, s, DropData(s, keys), keys);
  }

  lemma DeleteRetainedKeepsShapes(p: Platform, s: Catalog, owner: string, expected: Binding)
    requires Inv(p, s) && Shaped(p, s)
    ensures Shaped(p, AfterAlone(s, DeleteRetained(s, owner, expected)))
  {
    hide GenerationsUnique, HistoryReadable, RowsFit, Shaped, DropData;
    var key := Key(owner, expected.instance);
    if DeleteRetained(s, owner, expected).Success? {
      RowAt(p, s, key);
      DropKeepsShapes(p, s, {key});
    }
  }

  lemma CleanupKeepsShapes(p: Platform, s: Catalog, owner: string, now: Time, expected: seq<Binding>)
    requires Inv(p, s) && Shaped(p, s)
    ensures Shaped(p, AfterAlone(s, CleanupExpired(s, owner, now, expected)))
  {
    hide GenerationsUnique, HistoryReadable, RowsFit, Shaped, DropData, CheckExpired;
    if CleanupExpired(s, owner, now, expected).Success? {
      var keys := set b | b in expected :: Key(owner, b.instance);
      ExpiredIsRetained(s, owner, now, expected);
      forall b <- expected ensures Key(owner, b.instance) in s.records && !Live(s.records[Key(owner, b.instance)]) {
        RowAt(p, s, Key(owner, b.instance));
      }
      DropKeepsShapes(p, s, keys);
    }
  }

  /** A record that keeps its version list, its binding and its history. */
  lemma RelistedKeepsShapes(p: Platform, s: Catalog, key: Key, r: PluginRecord)
    requires Shaped(p, s) && key in s.records && r.versions == s.records[key].versions && Live(s.records[key])
    ensures Shaped(p, s.(records := s.records[key := r]))
  {
    hide ListShaped;
    assert RowShaped(p, s, key);
    ShapedAt(p, s, s.(records := s.records[key := r]), key);
  }

  // ---------------------------------------------------------------------------
  // Steps that bring a version list
  // ---------------------------------------------------------------------------

  /** An install keeps the shapes exactly if its list names data of each package's shape. */
  lemma InstallShapesIff(p: Platform, s: Catalog, owner: string, record: PluginRecord, expected: Option<Binding>,
                         next: Binding, shape: Shape, now: Time)
    requires Inv(p, s) && Shaped(p, s)
    ensures var r, key := Install(p, s, owner, record, expected, next, shape, now), Key(owner, record.instance);
            r.Success? ==>
              (Shaped(p, r.value.0) <==>
               ListShaped(p, key, record.versions, Some(next), InstallBase(s, key, expected).history))
  {
    hide Install, HistoryReadable, RowsFit, RecordFits, BindingMatches, ListShaped, GenerationsUnique;
    var r, key := Install(p, s, owner, record, expected, next, shape, now), Key(owner, record.instance);
    if r.Success? {
      InstallEffect(p, s, owner, record, expected, next, shape, now);
      ShapedAt(p, s, r.value.0, key);
    }
  }

  /**
   * What a caller of a version change can check of its list: the package being replaced is listed as it is, and every
   * other version names data of its own shape.
   */
  ghost predicate ChangeShaped(p: Platform, s: Catalog, key: Key, current: PluginRecord, versions: seq<PackageVersion>,
                               previous: Binding, active: Binding) {
    forall v <- versions ::
      if v.pkg.packageHash == current.pkg.packageHash then DeclaredHash(p, v.pkg) == Some(previous.shapeHash)
      else if v.generation == active.generation then DeclaredHash(p, v.pkg) == Some(active.shapeHash)
      else VersionShaped(p, key, v, Some(previous), s.history)
  }

  lemma MovedShapesIff(p: Platform, s: Catalog, key: Key, current: PluginRecord, versions: seq<PackageVersion>,
                       previous: Binding, active: Binding, row: HistoryRow)
    requires row.binding == previous && previous.generation != active.generation
    requires previous.generation != "" && active.generation != ""
    ensures ListShaped(p, key, BindPackage(versions, current.pkg.packageHash, previous.generation), Some(active),
                       MovedHistory(s.history, key, active.generation, previous.generation, row))
            <==> ChangeShaped(p, s, key, current, versions, previous, active)
  {
    hide DeclaredHash;
    var history := MovedHistory(s.history, key, active.generation, previous.generation, row);
    var bound := BindPackage(versions, current.pkg.packageHash, previous.generation);
    forall i | 0 <= i < |versions|
      ensures bound[i] in bound && versions[i] in versions
      ensures VersionShaped(p, key, bound[i], Some(active), history) <==>
              if versions[i].pkg.packageHash == current.pkg.packageHash
              then DeclaredHash(p, versions[i].pkg) == Some(previous.shapeHash)
              else if versions[i].generation == active.generation
              then DeclaredHash(p, versions[i].pkg) == Some(active.shapeHash)
              else VersionShaped(p, key, versions[i], Some(previous), s.history)
    {
    }
  }

  lemma CommitVersionShapesIff(p: Platform, s: Catalog, owner: string, expected: PluginRecord, next: PluginRecord,
                               previous: Binding, active: Binding, retained: Option<Binding>, now: Time, external: bool)
    requires Inv(p, s) && Shaped(p, s)
    ensures var r := CommitVersion(p, s, owner, expected, next, previous, active, retained, now, external);
            var key := Key(owner, expected.instance);
            r.Success? ==>
              && key in s.records
              && (Shaped(p, r.value.0) <==>
                  ChangeShaped(p, s, key, s.records[key], next.versions, previous, active))
  {
    hide CommitVersion, Readable, HistoryDecodes, BindPackage, RowsFit, Nanos, ListShaped, ChangeShaped,
         GenerationsUnique, DeclaredHash, SameOthers;
    var r := CommitVersion(p, s, owner, expected, next, previous, active, retained, now, external);
    if r.Success? {
      var key := Key(owner, expected.instance);
      CommitVersionEffect(p, s, owner, expected, next, previous, active, retained, now, external);
      RowAt(p, s, key);
      NotBlankIsNotEmpty(previous.generation);
      NotBlankIsNotEmpty(active.generation);
      MovedShapesIff(p, s, key, s.records[key], next.versions, previous, active,
                     HistoryRow(s.records[key].(versions := []), previous, Nanos(now)));
      HistoryTouched(s, key, r.value.1, active, active.generation, previous.generation,
                     HistoryRow(s.records[key].(versions := []), previous, Nanos(now)));
      ShapedAt(p, s, r.value.0, key);
    }
  }

  /** The same for a put, which binds the package being replaced to the dataset in use. */
  ghost predicate PutShaped(p: Platform, s: Catalog, key: Key, record: PluginRecord, existing: PluginRecord) {
    forall v <- record.versions ::
      if record.pkg.packageHash != existing.pkg.packageHash && v.pkg.packageHash == existing.pkg.packageHash
      then key in s.bindings && DeclaredHash(p, v.pkg) == Some(s.bindings[key].shapeHash)
      else VersionShaped(p, key, v, BindingAt(s, key), s.history)
  }

  lemma SwitchedShapesIff(p: Platform, s: Catalog, key: Key, next: PluginRecord, existing: PluginRecord)
    requires BindVersionSwitch(s, key, next, existing).Success?
    ensures ListShaped(p, key, BindVersionSwitch(s, key, next, existing).value.versions, BindingAt(s, key), s.history)
            <==> PutShaped(p, s, key, next, existing)
  {
    hide DeclaredHash, Blank;
    if key in s.bindings { NotBlankIsNotEmpty(s.bindings[key].generation); }
    var bound := BindVersionSwitch(s, key, next, existing).value.versions;
    forall i | 0 <= i < |next.versions|
      ensures |bound| == |next.versions|
      ensures bound[i] in bound && next.versions[i] in next.versions
      ensures VersionShaped(p, key, bound[i], BindingAt(s, key), s.history) <==>
              if next.pkg.packageHash != existing.pkg.packageHash
                 && next.versions[i].pkg.packageHash == existing.pkg.packageHash
              then key in s.bindings && DeclaredHash(p, next.versions[i].pkg) == Some(s.bindings[key].shapeHash)
              else VersionShaped(p, key, next.versions[i], BindingAt(s, key), s.history)
    {
    }
  }

  lemma PutSwitchedShapesIff(p: Platform, s: Catalog, key: Key, next: PluginRecord, stored: PluginRecord)
    requires Shaped(p, s) && key in s.records && BindVersionSwitch(s, key, next, s.records[key]) == Success(stored)
    ensures Shaped(p, s.(records := s.records[key := stored])) <==>
            (Live(next) ==> PutShaped(p, s, key, next, s.records[key]))
  {
    hide ListShaped, PutShaped, ValidBinding;
    SwitchedShapesIff(p, s, key, next, s.records[key]);
    ShapedAt(p, s, s.(records := s.records[key := stored]), key);
  }

  lemma PutShapesIff(p: Platform, s: Catalog, owner: string, record: PluginRecord, now: Time)
    requires Shaped(p, s)
    ensures var r, key := PutPlugin(p, s, owner, record, now), Key(owner, record.instance);
            r.Success? ==>
              && key in s.records
              && (Shaped(p, r.value.0) <==> (Live(record) ==> PutShaped(p, s, key, record, s.records[key])))
  {
    hide Shaped, DeclaredHash, Readable, BindVersionSwitch, VersionShaped;
    var r, key := PutPlugin(p, s, owner, record, now), Key(owner, record.instance);
    if r.Success? {
      var prepared := PreparePut(p, owner, record, Some(s.records[key]), now).value;
      PutSwitchedShapesIff(p, s, key, prepared, r.value.1);
    }
  }

  lemma UpdateExternalShapesIff(p: Platform, s: Catalog, owner: string, record: PluginRecord, revision: nat, now: Time)
    requires Shaped(p, s)
    ensures var r, key := UpdateExternal(p, s, owner, record, revision, now), Key(owner, record.instance);
            r.Success? ==>
              && key in s.records
              && (Shaped(p, r.value.0) <==> (Live(record) ==> PutShaped(p, s, key, record, s.records[key])))
  {
    hide Shaped, DeclaredHash, Readable, BindVersionSwitch, VersionShaped;
    var r, key := UpdateExternal(p, s, owner, record, revision, now), Key(owner, record.instance);
    if r.Success? {
      var prepared := PreparePut(p, owner, record, Some(s.records[key]), now).value;
      PutSwitchedShapesIff(p, s, key, prepared, r.value.1);
    }
  }

  // ---------------------------------------------------------------------------
  // Lists the host builds
  // ---------------------------------------------------------------------------

  /** A list built from a record: its snapshot, and listed versions of other packages. */
  ghost predicate BuiltOn(versions: seq<PackageVersion>, current: PluginRecord) {
    forall v <- versions ::
      || (v in current.versions && v.pkg.packageHash != current.pkg.packageHash)
      || (v.generation == "" && v.pkg == current.pkg)
  }

  lemma HostListsAreBuiltOn(existing: seq<PackageVersion>, next: Package, current: PluginRecord, now: Time)
    requires current.pkg.packageHash != "" && current.pkg.packageHash != next.packageHash
    requires forall v <- existing :: v in current.versions
    ensures BuiltOn(SwitchHistory(existing, next.packageHash, SnapshotOf(current, now)), current)
  {
  }

  lemma BuiltChangeIsShaped(p: Platform, s: Catalog, key: Key, versions: seq<PackageVersion>, previous: Binding,
                            active: Binding)
    requires Inv(p, s) && Shaped(p, s) && key in s.records && Live(s.records[key])
    requires BindingAt(s, key) == Some(previous) && BuiltOn(versions, s.records[key])
    requires Slot(key, active.generation) in s.history ==>
               active.shapeHash == s.history[Slot(key, active.generation)].binding.shapeHash
    requires active.generation != previous.generation && active.generation != ""
    ensures ChangeShaped(p, s, key, s.records[key], versions, previous, active)
  {
    hide GenerationsUnique, HistoryReadable, DeclaredHash, Readable, ValidBinding;
    RowAt(p, s, key);
    assert RowShaped(p, s, key);
    forall v <- versions | v.pkg.packageHash != s.records[key].pkg.packageHash
      ensures VersionShaped(p, key, v, Some(previous), s.history) {
      assert v in s.records[key].versions;
    }
  }

  // ---------------------------------------------------------------------------
  // Runs
  // ---------------------------------------------------------------------------

  /**
   * A request that brings a version list fits the shapes it meets, or the list was built by the host from a record that
   * was read in an earlier state.
   */
  ghost predicate ListAdmissible(p: Platform, past: seq<Catalog>, q: Request)
    requires past != []
  {
    var s := past[|past| - 1];
    match q.op
    case DoInstall(record, expected, next, _, _) =>
      var key := Key(q.owner, record.instance);
      ListShaped(p, key, record.versions, Some(next), InstallBase(s, key, expected).history)
    case DoVersion(expected, record, previous, active, _, _, _) =>
      var key := Key(q.owner, expected.instance);
      || (key in s.records ==> ChangeShaped(p, s, key, s.records[key], record.versions, previous, active))
      || (WasRead(past, key, expected) && BuiltOn(record.versions, expected))
    case DoPut(record, _) =>
      var key := Key(q.owner, record.instance);
      key in s.records && Live(record) ==>
        PutShaped(p, s, key, record, s.records[key]) || BuiltOn(record.versions, s.records[key])
    case DoUpdateExternal(record, _, _) =>
      var key := Key(q.owner, record.instance);
      key in s.records && Live(record) ==>
        PutShaped(p, s, key, record, s.records[key]) || ListBuiltEarlier(past, key, record)
    case _ => true
  }

  ghost predicate ListBuiltEarlier(past: seq<Catalog>, key: Key, record: PluginRecord)
    requires past != []
  {
    var s := past[|past| - 1];
    exists j :: 0 <= j < |past| && ListBuiltFrom(s, past[j], key, record)
  }

  ghost predicate ListBuiltFrom(s: Catalog, earlier: Catalog, key: Key, record: PluginRecord) {
    && key in s.records && key in earlier.records && Live(earlier.records[key])
    && earlier.records[key].revisions.revokeEpoch == s.records[key].revisions.revokeEpoch
    && BuiltOn(record.versions, earlier.records[key])
  }

  /** A restored binding has the shape of the row it is taken from, and an upgrade's generation has no row. */
  lemma TakenShape(p: Platform, s: Catalog, owner: string, expected: PluginRecord, next: PluginRecord,
                   previous: Binding, active: Binding, retained: Option<Binding>, now: Time, external: bool)
    requires CommitVersion(p, s, owner, expected, next, previous, active, retained, now, external).Success?
    ensures var slot := Slot(Key(owner, expected.instance), active.generation);
            slot in s.history ==> active.shapeHash == s.history[slot].binding.shapeHash
  {
    hide CheckRecordShape, ValidBinding, Readable, IdentityValid, PreparePut, HistoryDecodes, BindPackage,
         UsesGeneration, Dated, Nanos;
    var slot := Slot(Key(owner, expected.instance), active.generation);
    assert slot.key.owner == owner;
  }

  lemma SameListBuiltOn(versions: seq<PackageVersion>, a: PluginRecord, b: PluginRecord)
    requires BuiltOn(versions, a) && a.pkg == b.pkg && a.versions == b.versions
    ensures BuiltOn(versions, b)
  {
  }

  lemma VersionKeepsShapes(p: Platform, past: seq<Catalog>, owner: string, expected: PluginRecord, next: PluginRecord,
                           previous: Binding, active: Binding, retained: Option<Binding>, now: Time, external: bool)
    requires past != [] && Inv(p, past[|past| - 1]) && Shaped(p, past[|past| - 1])
    requires forall i :: 0 <= i < |past| ==> Since(past[i], past[|past| - 1])
    requires ListAdmissible(p, past,
                            Request(owner, DoVersion(expected, next, previous, active, retained, now, external)))
    ensures var s := past[|past| - 1];
            Shaped(p, After(s, CommitVersion(p, s, owner, expected, next, previous, active, retained, now, external)))
  {
    hide CommitVersion, Shaped, WasRead, Since, BuiltOn, ChangeShaped, ValidBinding, RowsFit, HistoryReadable,
         GenerationsUnique, Readable, DeclaredHash;
    var s, key := past[|past| - 1], Key(owner, expected.instance);
    if CommitVersion(p, s, owner, expected, next, previous, active, retained, now, external).Success? {
      CommitVersionShapesIff(p, s, owner, expected, next, previous, active, retained, now, external);
      if !ChangeShaped(p, s, key, s.records[key], next.versions, previous, active) {
        ReadIsCurrent(p, past, owner, expected, next, previous, active, retained, now, external);
        SameListBuiltOn(next.versions, expected, s.records[key]);
        CommitVersionEffect(p, s, owner, expected, next, previous, active, retained, now, external);
        TakenShape(p, s, owner, expected, next, previous, active, retained, now, external);
        ActiveIsNamed(p, key, CommitVersion(p, s, owner, expected, next, previous, active, retained, now,
                                            external).value.1, active);
        BuiltChangeIsShaped(p, s, key, next.versions, previous, active);
      }
    }
  }

  lemma ActiveIsNamed(p: Platform, key: Key, r: PluginRecord, b: Binding)
    requires BindingMatches(p, key, r, b)
    ensures b.generation != ""
  {
    NotBlankIsNotEmpty(b.generation);
  }

  lemma PutKeepsShapes(p: Platform, s: Catalog, owner: string, record: PluginRecord, now: Time)
    requires Inv(p, s) && Shaped(p, s)
    requires var key := Key(owner, record.instance);
             key in s.records && Live(record) ==>
               PutShaped(p, s, key, record, s.records[key]) || BuiltOn(record.versions, s.records[key])
    ensures Shaped(p, After(s, PutPlugin(p, s, owner, record, now)))
  {
    hide Shaped, BuiltOn, PutShaped, Inv;
    var key := Key(owner, record.instance);
    PutShapesIff(p, s, owner, record, now);
    if PutPlugin(p, s, owner, record, now).Success? && Live(record)
       && !PutShaped(p, s, key, record, s.records[key]) {
      SwitchedIsBound(p, s, key, record, s.records[key]);
    }
  }

  lemma ExternalKeepsShapes(p: Platform, past: seq<Catalog>, owner: string, record: PluginRecord, revision: nat,
                            now: Time)
    requires past != [] && Inv(p, past[|past| - 1]) && Shaped(p, past[|past| - 1])
    requires forall i :: 0 <= i < |past| ==> Since(past[i], past[|past| - 1])
    requires ListAdmissible(p, past, Request(owner, DoUpdateExternal(record, revision, now)))
    ensures var s := past[|past| - 1]; Shaped(p, After(s, UpdateExternal(p, s, owner, record, revision, now)))
  {
    hide Shaped, BuiltOn, PutShaped, Inv, Since;
    var s, key := past[|past| - 1], Key(owner, record.instance);
    UpdateExternalShapesIff(p, s, owner, record, revision, now);
    if UpdateExternal(p, s, owner, record, revision, now).Success? && Live(record)
       && !PutShaped(p, s, key, record, s.records[key]) {
      var j :| 0 <= j < |past| && ListBuiltFrom(s, past[j], key, record);
      SinceAt(past[j], s, key);
      SameListBuiltOn(record.versions, past[j].records[key], s.records[key]);
      SwitchedIsBound(p, s, key, record, s.records[key]);
    }
  }

  lemma SinceAt(s: Catalog, s': Catalog, key: Key)
    requires Since(s, s') && key in s.records
    ensures key in s'.records && RecordSince(s.records[key], s'.records[key])
  {
  }

  /** A switch to another package needs a binding; without one the list is not touched. */
  lemma SwitchedIsBound(p: Platform, s: Catalog, key: Key, record: PluginRecord, existing: PluginRecord)
    requires Inv(p, s) && Shaped(p, s) && key in s.records && s.records[key] == existing && Live(existing)
    requires BuiltOn(record.versions, existing)
    requires record.pkg.packageHash != existing.pkg.packageHash ==> key in s.bindings
    ensures PutShaped(p, s, key, record, existing)
  {
    hide GenerationsUnique, HistoryReadable, DeclaredHash, Readable, ValidBinding;
    RowAt(p, s, key);
    assert RowShaped(p, s, key);
    forall v <- record.versions | v in existing.versions
      ensures VersionShaped(p, key, v, BindingAt(s, key), s.history) {
    }
  }

  lemma EnableKeepsShapes(p: Platform, s: Catalog, owner: string, instance: string, state: EnableState, reason: string,
                          now: Time)
    requires Shaped(p, s)
    ensures Shaped(p, After(s, SetEnableState(p, s, owner, instance, state, reason, now)))
    ensures Shaped(p, After(s, BumpRevokeEpoch(p, s, owner, instance, now)))
  {
    hide Shaped, Readable, Dated;
    var key := Key(owner, instance);
    var a, b := SetEnableState(p, s, owner, instance, state, reason, now), BumpRevokeEpoch(p, s, owner, instance, now);
    if a.Success? { RelistedKeepsShapes(p, s, key, a.value.1); }
    if b.Success? { RelistedKeepsShapes(p, s, key, b.value.1); }
  }

  lemma GrantKeepsShapes(p: Platform, s: Catalog, resources: map<ResourceKey, FileResource>)
    requires Shaped(p, s)
    ensures Shaped(p, s.(resources := resources))
  {
    hide ListShaped;
    var s' := s.(resources := resources);
    forall k <- s'.records ensures RowShaped(p, s', k) {
      assert RowShaped(p, s, k) && BindingAt(s', k) == BindingAt(s, k);
    }
  }

  lemma StepKeepsShapes(p: Platform, past: seq<Catalog>, q: Request)
    requires past != [] && Inv(p, past[|past| - 1]) && Shaped(p, past[|past| - 1])
    requires Admissible(p, past, q) && ListAdmissible(p, past, q)
    requires forall i :: 0 <= i < |past| ==> Since(past[i], past[|past| - 1])
    ensures Shaped(p, Step(p, past[|past| - 1], q))
  {
    hide Install, Uninstall, SwapImport, BindRetained, DeleteRetained, CleanupExpired, CommitVersion, PutPlugin,
         UpdateExternal, RecoverRetained, SetEnableState, BumpRevokeEpoch, WasRead, Since, Inv, DerivedVersions,
         InstallFits, ChangeFits, PutFits, UnusedElsewhere, BuiltEarlier, Unbound, Shaped, ListShaped, ChangeShaped,
         PutShaped, BuiltOn, Nanos, ListBuiltEarlier;
    var s := past[|past| - 1];
    match q.op
    case DoInstall(record, expected, next, shape, now) =>
      InstallShapesIff(p, s, q.owner, record, expected, next, shape, now);
    case DoUninstall(instance, deleteData, revision, until, now) =>
      UninstallKeepsShapes(p, s, q.owner, instance, deleteData, revision, until, now);
    case DoSwapImport(revision, expected, next, shape, now) =>
      SwapImportKeepsShapes(p, s, q.owner, revision, expected, next, shape, now);
    case DoBindRetained(source, instance, revision, shape, now) =>
      BindRetainedKeepsShapes(p, s, q.owner, source, instance, revision, shape, now);
    case DoDeleteRetained(source) => DeleteRetainedKeepsShapes(p, s, q.owner, source);
    case DoCleanup(now, expired) => CleanupKeepsShapes(p, s, q.owner, now, expired);
    case DoVersion(expected, record, previous, active, retained, now, external) =>
      VersionKeepsShapes(p, past, q.owner, expected, record, previous, active, retained, now, external);
    case DoPut(record, now) => PutKeepsShapes(p, s, q.owner, record, now);
    case DoUpdateExternal(record, revision, now) => ExternalKeepsShapes(p, past, q.owner, record, revision, now);
    case DoRecover(plan, shape, now) => RecoverKeepsShapes(p, s, q.owner, plan, shape, now);
    case DoSetEnable(instance, state, reason, now) => EnableKeepsShapes(p, s, q.owner, instance, state, reason, now);
    case DoBump(instance, now) => EnableKeepsShapes(p, s, q.owner, instance, Enabled, "", now);
    case DoGrant(resource, grant, payloadValid, revisions, now) =>
      OnlyResourcesChange(s, resource, grant, payloadValid, revisions, 0, now);
      GrantKeepsShapes(p, s, Step(p, s, q).resources);
    case DoRevoke(resource, revision, now) =>
      OnlyResourcesChange(s, resource, FileResource("", 0, 0, 0, None), false, Revisions(0, 0, 0), revision, now);
      GrantKeepsShapes(p, s, Step(p, s, q).resources);
  }

  lemma OnlyResourcesChange(s: Catalog, k: ResourceKey, r: FileResource, payloadValid: bool, revisions: Revisions,
                            revision: nat, now: Time)
    ensures var c := Create(s, k, r, payloadValid, revisions, now);
            c.Success? ==> c.value == s.(resources := c.value.resources)
    ensures var c := Revoke(s, k, revision, now); c.Success? ==> c.value == s.(resources := c.value.resources)
  {
    hide Evicted, ActiveIn, ValidKey, Nanos;
  }

  // ---------------------------------------------------------------------------
  // What the history files
  // ---------------------------------------------------------------------------

  /** The history files bindings that were in use. */
  ghost predicate FiledInUse(s: Catalog) {
    forall slot <- s.history :: s.history[slot].binding.state.Active?
  }

  /** Every history row after a step was there before, or files the binding an upgrade or restore replaced. */
  ghost predicate HistoryGrows(s: Catalog, s': Catalog, key: Key) {
    forall slot <- s'.history ::
      || (slot in s.history && s'.history[slot] == s.history[slot])
      || (key in s.bindings && s'.history[slot].binding == s.bindings[key])
  }

  lemma VersionFiles(p: Platform, s: Catalog, owner: string, expected: PluginRecord, next: PluginRecord,
                     previous: Binding, active: Binding, retained: Option<Binding>, now: Time, external: bool)
    ensures var r := CommitVersion(p, s, owner, expected, next, previous, active, retained, now, external);
            var key := Key(owner, expected.instance);
            r.Success? ==> HistoryGrows(s, r.value.0, key) && key in s.records && Live(s.records[key])
  {
    hide CommitVersion, Readable, HistoryDecodes, BindPackage, Nanos, BindingMatches;
    if CommitVersion(p, s, owner, expected, next, previous, active, retained, now, external).Success? {
      CommitVersionEffect(p, s, owner, expected, next, previous, active, retained, now, external);
    }
  }

  ghost predicate OnlyDrops(s: Catalog, s': Catalog) {
    forall slot <- s'.history :: slot in s.history && s'.history[slot] == s.history[slot]
  }

  lemma RowsFileNothing(p: Platform, s: Catalog, q: Request)
    requires q.op.DoInstall? || q.op.DoUninstall? || q.op.DoDeleteRetained? || q.op.DoCleanup?
    ensures OnlyDrops(s, Step(p, s, q))
  {
    hide PreparePut, CheckRecordShape, ReadBinding, ReadLive, CheckRetained, CheckExpired, Readable, ValidBinding,
         Nanos, Dated;
  }

  lemma ChangesFileNothing(p: Platform, s: Catalog, q: Request)
    requires q.op.DoSwapImport? || q.op.DoBindRetained? || q.op.DoPut? || q.op.DoUpdateExternal?
    ensures OnlyDrops(s, Step(p, s, q))
  {
    hide PreparePut, CheckRecordShape, ReadBinding, ReadLive, ReadAny, BindVersionSwitch, Readable, ValidBinding,
         Rebind, Trim, Dated;
  }

  lemma RestFileNothing(p: Platform, s: Catalog, q: Request)
    requires q.op.DoRecover? || q.op.DoSetEnable? || q.op.DoBump? || q.op.DoGrant? || q.op.DoRevoke?
    ensures OnlyDrops(s, Step(p, s, q))
  {
    hide CheckRecordShape, ReadBinding, ReadLive, ReadAny, RecoveryOutcome, Rebind, Evicted, ActiveIn, ReadGrant,
         ValidKey, Nanos, Dated;
  }

  lemma StepKeepsFiled(p: Platform, s: Catalog, q: Request)
    requires Inv(p, s) && FiledInUse(s)
    ensures FiledInUse(Step(p, s, q))
  {
    hide GenerationsUnique, HistoryReadable, RowsFit, CommitVersion;
    if q.op.DoVersion? {
      var o := q.op;
      VersionFiles(p, s, q.owner, o.expected, o.record, o.previous, o.active, o.retained, o.now, o.external);
      var key := Key(q.owner, o.expected.instance);
      if key in s.records { RowAt(p, s, key); }
    } else {
      hide Step;
      match q.op
      case DoInstall(_, _, _, _, _) => RowsFileNothing(p, s, q);
      case DoUninstall(_, _, _, _, _) => RowsFileNothing(p, s, q);
      case DoDeleteRetained(_) => RowsFileNothing(p, s, q);
      case DoCleanup(_, _) => RowsFileNothing(p, s, q);
      case DoSwapImport(_, _, _, _, _) => ChangesFileNothing(p, s, q);
      case DoBindRetained(_, _, _, _, _) => ChangesFileNothing(p, s, q);
      case DoPut(_, _) => ChangesFileNothing(p, s, q);
      case DoUpdateExternal(_, _, _) => ChangesFileNothing(p, s, q);
      case _ => RestFileNothing(p, s, q);
    }
  }

  /** A run in which every version list fits or comes from the host, from a start in which lists and shapes agree. */
  ghost predicate ListedRun(p: Platform, trace: seq<Catalog>, requests: seq<Request>) {
    && Run(p, trace, requests) && Shaped(p, trace[0]) && FiledInUse(trace[0])
    && forall i :: 0 <= i < |requests| ==> ListAdmissible(p, trace[..i + 1], requests[i])
  }

  /** In every state of such a run every listed version names data of its own package's shape. */
  lemma {:induction false} RunKeepsShapes(p: Platform, trace: seq<Catalog>, requests: seq<Request>, i: nat)
    requires ListedRun(p, trace, requests) && i < |trace|
    ensures Inv(p, trace[i]) && Shaped(p, trace[i]) && FiledInUse(trace[i])
  {
    hide Step, Inv, Admissible, ListAdmissible, Since, Shaped, FiledInUse;
    RunKeepsInvariant(p, trace, requests, i);
    if i > 0 {
      RunKeepsShapes(p, trace, requests, i - 1);
      var past := trace[..i];
      forall j | 0 <= j < |past| ensures Since(past[j], past[|past| - 1]) {
        RunMovesOn(p, trace, requests, j, i - 1);
      }
      assert trace[i - 1 + 1] == Step(p, trace[i - 1], requests[i - 1])
          && Admissible(p, trace[..i - 1 + 1], requests[i - 1])
          && ListAdmissible(p, trace[..i - 1 + 1], requests[i - 1]);
      StepKeepsShapes(p, past, requests[i - 1]);
      StepKeepsFiled(p, trace[i - 1], requests[i - 1]);
    }
  }

  // ---------------------------------------------------------------------------
  // Bringing a listed version back
  // ---------------------------------------------------------------------------

  /** The identity a record carries is that of its manifest, and so is the identity of the shape it declares. */
  ghost predicate Coherent(p: Platform, r: PluginRecord) {
    var shape := DeclaredShape(p, r.pkg);
    && IdentityValid(p, r) && shape.Some? && shape.value.publisherID == r.publisherID
    && shape.value.pluginID == r.pluginID
  }

  ghost predicate Accepted(p: Platform, owner: string, r: PluginRecord) {
    p.acceptable(owner, r.pkg) && forall v <- r.versions :: p.acceptable(owner, v.pkg)
  }

  /** What a restore depends on besides the data: its time, the revisions, and the two packages. */
  ghost predicate RestoreAllowed(p: Platform, owner: string, r: PluginRecord, next: PluginRecord, b: Binding, now: Time)
  {
    && now != ZERO_TIME && Dated(now) && b.revision < MAX_INT64
    && r.revisions.management < MAX_INT64 && r.revisions.revokeEpoch < MAX_INT64
    && Coherent(p, r) && Coherent(p, next) && next.pkg.version != r.pkg.version && Accepted(p, owner, next)
  }

  lemma CoherentIsStorable(p: Platform, r: PluginRecord, b: Binding)
    requires Coherent(p, r) && ValidBinding(b) && b.state.Active? && b.instance == r.instance
    requires DeclaredHash(p, r.pkg) == Some(b.shapeHash)
    ensures Storable(p, r, b)
  {
    hide IdentityValid, ValidBinding;
  }

  /** The downgraded record lists nothing that cannot be read. */
  lemma DowngradeIsReadable(p: Platform, owner: string, r: PluginRecord, version: string, packageHash: string,
                            now: Time)
    requires Readable(p, r) && SelectSnapshot(r.versions, version, packageHash).Some? && Dated(now)
    ensures var (v, rest) := SelectSnapshot(r.versions, version, packageHash).value;
            var next := DowngradeRecord(r, v, rest, now);
            && v in r.versions && Readable(p, next)
            && (Accepted(p, owner, next) ==> AllAcceptable(p, owner, next.pkg, next.versions))
  {
    hide Dated, SelectSnapshot;
    SelectFinds(r.versions, version, packageHash);
  }

  lemma RestoreShows(p: Platform, s: Catalog, owner: string, current: PluginRecord, next: PluginRecord, active: Binding,
                     restored: Binding, retained: Binding, now: Time)
    requires CommitVersion(p, s, owner, current, next, active, restored, Some(retained), now, false).Success?
    requires Key(owner, current.instance) in s.records && s.records[Key(owner, current.instance)] == current
    ensures Coherent(p, current) && Coherent(p, next) && next.pkg.version != current.pkg.version
    ensures Accepted(p, owner, next)
  {
    hide ValidBinding, IdentityValid, HistoryDecodes, BindPackage, UsesGeneration, Dated, Blank, Nanos, Readable;
  }

  /** A version whose data is in use comes back by a put, exactly if the packages are still accepted. */
  lemma SharedComesBack(p: Platform, s: Catalog, owner: string, r: PluginRecord, version: string, packageHash: string,
                        now: Time)
    requires var key := Key(owner, r.instance);
             && Inv(p, s) && Shaped(p, s) && key in s.records && s.records[key] == r && Live(r) && key in s.bindings
    requires var found := SelectSnapshot(r.versions, version, packageHash);
             found.Some? && found.value.0.generation == s.bindings[Key(owner, r.instance)].generation
    ensures var (v, rest) := SelectSnapshot(r.versions, version, packageHash).value;
            var next := DowngradeRecord(r, v, rest, now);
            var put := PutPlugin(p, s, owner, next, now);
            && (put.Success? <==> Dated(now) && Accepted(p, owner, next))
            && (put.Success? ==> Inv(p, put.value.0) && put.value.1.pkg == v.pkg)
  {
    hide GenerationsUnique, HistoryReadable, SelectSnapshot, DeclaredHash, Dated, SwitchVersions, PutFits, Blank,
         SwitchHistory;
    var key := Key(owner, r.instance);
    var (v, rest) := SelectSnapshot(r.versions, version, packageHash).value;
    var next := DowngradeRecord(r, v, rest, now);
    RowAt(p, s, key);
    SelectFinds(r.versions, version, packageHash);
    assert RowShaped(p, s, key) && VersionShaped(p, key, v, BindingAt(s, key), s.history);
    NotBlankIsNotEmpty(v.generation);
    HostRecordsAreDerived(r, next, version, packageHash, now);
    DerivedRecordFits(p, s, key, next);
    PutPluginKeepsIff(p, s, owner, next, now);
    PutCommitsIff(p, s, owner, r, version, packageHash, now);
  }

  lemma PutCommitsIff(p: Platform, s: Catalog, owner: string, r: PluginRecord, version: string, packageHash: string,
                      now: Time)
    requires var key := Key(owner, r.instance);
             && key in s.records && s.records[key] == r && Live(r) && Readable(p, r) && r.owner == owner
             && key in s.bindings && ValidBinding(s.bindings[key]) && s.bindings[key].instance == r.instance
    requires SelectSnapshot(r.versions, version, packageHash).Some?
    ensures var (v, rest) := SelectSnapshot(r.versions, version, packageHash).value;
            var next := DowngradeRecord(r, v, rest, now);
            var put := PutPlugin(p, s, owner, next, now);
            && (put.Success? <==> Dated(now) && Accepted(p, owner, next))
            && (put.Success? ==> put.value.1.pkg == v.pkg)
  {
    hide SelectSnapshot, Dated, Blank, BindPackage, SwitchHistory;
    var (v, rest) := SelectSnapshot(r.versions, version, packageHash).value;
    var next := DowngradeRecord(r, v, rest, now);
    if Dated(now) {
      DowngradeIsReadable(p, owner, r, version, packageHash, now);
      var bound := BoundPackages(next.versions, r.pkg.packageHash, s.bindings[Key(owner, r.instance)].generation);
      forall w <- bound ensures p.decode(w.pkg.canonical).Some? && Dated(w.activatedAt) {
        var i :| 0 <= i < |bound| && bound[i] == w;
        assert next.versions[i] in next.versions;
      }
    }
  }

  /**
   * A version with data of its own comes back by a restore, exactly if time, revisions and packages allow it; the
   * catalog is then sane again exactly if the time is stored as a positive number.
   */
  lemma RetainedComesBack(p: Platform, s: Catalog, owner: string, r: PluginRecord, version: string, packageHash: string,
                          now: Time)
    requires var key := Key(owner, r.instance);
             && Inv(p, s) && Shaped(p, s) && FiledInUse(s)
             && key in s.records && s.records[key] == r && Live(r) && key in s.bindings
    requires var found := SelectSnapshot(r.versions, version, packageHash);
             && found.Some? && found.value.0.generation != ""
             && found.value.0.generation != s.bindings[Key(owner, r.instance)].generation
    ensures var key := Key(owner, r.instance);
            var (v, rest) := SelectSnapshot(r.versions, version, packageHash).value;
            && Slot(key, v.generation) in s.history
            && var next, b := DowngradeRecord(r, v, rest, now), s.bindings[key];
            var kept := s.history[Slot(key, v.generation)].binding;
            var back := CommitVersion(p, s, owner, r, next, b, RestoredBinding(kept, b), Some(kept), now, false);
            && (back.Success? <==> RestoreAllowed(p, owner, r, next, b, now))
            && (back.Success? ==>
                  && (Inv(p, back.value.0) <==> Nanos(now) > 0)
                  && BindingAt(back.value.0, key) == Some(RestoredBinding(kept, b)) && back.value.1.pkg == v.pkg)
  {
    hide CommitVersion, SelectSnapshot, DeclaredHash, Dated, Nanos, SwitchHistory, Coherent, Accepted, ValidBinding,
         CheckRecordShape, IdentityValid, Readable, AllAcceptable, GenerationsUnique, RowsFit, Blank;
    var key, b := Key(owner, r.instance), s.bindings[Key(owner, r.instance)];
    var (v, rest) := SelectSnapshot(r.versions, version, packageHash).value;
    var next := DowngradeRecord(r, v, rest, now);
    RowAt(p, s, key);
    SelectFinds(r.versions, version, packageHash);
    assert RowShaped(p, s, key) && VersionShaped(p, key, v, BindingAt(s, key), s.history);
    var kept := s.history[Slot(key, v.generation)].binding;
    assert HistoryDecodes(p, Slot(key, v.generation), s.history[Slot(key, v.generation)]);
    BoundIsNotRetained(s, key);
    ValidIsNamed(b);
    if RestoreAllowed(p, owner, r, next, b, now) {
      DowngradeIsReadable(p, owner, r, version, packageHash, now);
      CoherentIsStorable(p, r, b);
      CoherentIsStorable(p, next, kept);
      assert UsesGeneration(r, next.pkg, kept.generation);
      RestoreCommits(p, s, owner, r, next, b, kept, now);
    }
    if CommitVersion(p, s, owner, r, next, b, RestoredBinding(kept, b), Some(kept), now, false).Success? {
      RestoreNeeds(p, s, owner, r, next, b, RestoredBinding(kept, b), kept, now);
      RestoreShows(p, s, owner, r, next, b, RestoredBinding(kept, b), kept, now);
      CommitVersionEffect(p, s, owner, r, next, b, RestoredBinding(kept, b), Some(kept), now, false);
      CommitVersionKeepsIff(p, s, owner, r, next, b, RestoredBinding(kept, b), Some(kept), now, false);
      HostRecordsAreDerived(r, next, version, packageHash, now);
      DerivedNamesHeld(s, key, next.versions, b, RestoredBinding(kept, b));
    }
  }

  lemma ValidIsNamed(b: Binding)
    requires ValidBinding(b)
    ensures !Blank(b.instance) && b.generation != ""
  {
    NotBlankIsNotEmpty(b.generation);
  }

  /**
   * In every state of every such run, every version an installed plugin lists with data can be brought back: the data
   * never stands in the way.
   */
  lemma AnyVersionComesBack(p: Platform, trace: seq<Catalog>, requests: seq<Request>, i: nat, owner: string,
                            instance: string, version: string, packageHash: string, now: Time)
    requires ListedRun(p, trace, requests) && i < |trace|
    requires var s, key := trace[i], Key(owner, instance);
             && key in s.records && Live(s.records[key]) && key in s.bindings
             && var found := SelectSnapshot(s.records[key].versions, version, packageHash);
             found.Some? && found.value.0.generation != ""
    ensures var s, key := trace[i], Key(owner, instance);
            var r, b := s.records[key], s.bindings[key];
            var (v, rest) := SelectSnapshot(r.versions, version, packageHash).value;
            var next := DowngradeRecord(r, v, rest, now);
            if v.generation == b.generation then
              PutPlugin(p, s, owner, next, now).Success? <==> Dated(now) && Accepted(p, owner, next)
            else
              && Slot(key, v.generation) in s.history
              && var kept := s.history[Slot(key, v.generation)].binding;
              CommitVersion(p, s, owner, r, next, b, RestoredBinding(kept, b), Some(kept), now, false).Success?
              <==> RestoreAllowed(p, owner, r, next, b, now)
  {
    hide ListedRun, Inv, Shaped, FiledInUse, SelectSnapshot, PutPlugin, CommitVersion, RestoreAllowed, Accepted, Dated,
         DowngradeRecord;
    var s, key := trace[i], Key(owner, instance);
    RunKeepsShapes(p, trace, requests, i);
    InstanceOf(p, s, key);
    if SelectSnapshot(s.records[key].versions, version, packageHash).value.0.generation == s.bindings[key].generation {
      SharedComesBack(p, s, owner, s.records[key], version, packageHash, now);
    } else {
      RetainedComesBack(p, s, owner, s.records[key], version, packageHash, now);
    }
  }

  lemma InstanceOf(p: Platform, s: Catalog, key: Key)
    requires Inv(p, s) && key in s.records
    ensures s.records[key].instance == key.instance
  {
    RowAt(p, s, key);
  }
}
