/** How the host builds the version list of the record it asks the store to commit, and what a restore undoes. */
module VersionSwitching {
  import opened Outcomes
  import opened ControlRows
  import opened DataCatalog
  import opened CatalogInvariant

  /** The snapshot the host takes of the package being replaced; the store binds its generation. */
  function SnapshotOf(r: PluginRecord, now: Time): PackageVersion {
    PackageVersion("", r.pkg, now)
  }

  function Without(versions: seq<PackageVersion>, packageHash: string): (r: seq<PackageVersion>)
    ensures forall v :: v in r <==> v in versions && v.pkg.packageHash != packageHash
  {
    if versions == [] then []
    else if versions[0].pkg.packageHash == packageHash then Without(versions[1..], packageHash)
    else [versions[0]] + Without(versions[1..], packageHash)
  }

  function AppendSnapshot(versions: seq<PackageVersion>, snapshot: PackageVersion): seq<PackageVersion> {
    Without(versions, snapshot.pkg.packageHash) + [snapshot]
  }

  function SwitchHistory(existing: seq<PackageVersion>, activePackage: string,
                         previous: PackageVersion): seq<PackageVersion> {
    var kept := Without(existing, activePackage);
    if previous.pkg.packageHash != "" && previous.pkg.packageHash != activePackage then AppendSnapshot(kept, previous)
        else kept
  }

  /** The first snapshot of the requested version and package, with the list that remains without it. */
  function SelectSnapshot(versions: seq<PackageVersion>, version: string,
                          packageHash: string): Option<(PackageVersion, seq<PackageVersion>)> {
    if versions == [] then None
    else if (version == "" || versions[0].pkg.version == version)
        && (packageHash == "" || versions[0].pkg.packageHash == packageHash) then
      Some((versions[0], versions[1..]))
    else
      match SelectSnapshot(versions[1..], version, packageHash)
      case None => None
      case Some((found, rest)) => Some((found, [versions[0]] + rest))
  }

  /** The record a downgrade asks to store: the snapshot's package under the current identity. */
  function DowngradeRecord(current: PluginRecord, snapshot: PackageVersion, remaining: seq<PackageVersion>,
                           now: Time): PluginRecord {
    current.(pkg := snapshot.pkg, updatedAt := now,
             versions := SwitchHistory(remaining, snapshot.pkg.packageHash, SnapshotOf(current, now)))
  }

  lemma {:induction false} SelectFinds(versions: seq<PackageVersion>, version: string, packageHash: string)
    ensures match SelectSnapshot(versions, version, packageHash)
            case None => forall v <- versions ::
                !((version == "" || v.pkg.version == version)
                  && (packageHash == "" || v.pkg.packageHash == packageHash))
            case Some((found, rest)) =>
              && found in versions && (version == "" || found.pkg.version == version)
              && (packageHash == "" || found.pkg.packageHash == packageHash)
              && multiset(versions) == multiset(rest) + multiset{found}
              && (forall v <- rest :: v in versions)
  {
    if versions != [] {
      SelectFinds(versions[1..], version, packageHash);
      assert versions == [versions[0]] + versions[1..];
    }
  }

  /** Whatever the host keeps in the list was there before, apart from the package being replaced. */
  lemma SwitchHistoryIsDerived(existing: seq<PackageVersion>, next: Package, current: PluginRecord, now: Time,
                               before: seq<PackageVersion>)
    requires forall v <- existing :: v in before
    ensures var versions := SwitchHistory(existing, next.packageHash, SnapshotOf(current, now));
            && DerivedVersions(versions, before, current.pkg.packageHash)
            && (forall v <- versions :: v.pkg.packageHash != next.packageHash)
  {
  }

  /** The record an update asks to store: the new package under the current identity, state and history. */
  function SwitchRecord(current: PluginRecord, next: PluginRecord, existing: seq<PackageVersion>,
                        now: Time): PluginRecord {
    next.(instance := current.instance, enable := current.enable, disabledReason := current.disabledReason,
          revisions := current.revisions, installedAt := current.installedAt, enabledAt := current.enabledAt,
          deletedAt := current.deletedAt, updatedAt := now,
          versions := SwitchHistory(existing, next.pkg.packageHash, SnapshotOf(current, now)))
  }

  /** A downgrade is such a switch, to the package of a snapshot and with the list that remains without it. */
  lemma DowngradeIsSwitch(current: PluginRecord, snapshot: PackageVersion, remaining: seq<PackageVersion>, now: Time)
    ensures DowngradeRecord(current, snapshot, remaining, now)
            == SwitchRecord(current, current.(pkg := snapshot.pkg), remaining, now)
  {
  }

  /**
   * The records the host builds from a live record, for an update and for a downgrade, are live and have the version
   * lists the store's invariant asks for.
   */
  lemma HostRecordsAreDerived(current: PluginRecord, next: PluginRecord, version: string, packageHash: string,
                              now: Time)
    requires Live(current)
    ensures var updated := SwitchRecord(current, next, current.versions, now);
            Live(updated) && SwitchVersions(updated, current)
    ensures match SelectSnapshot(current.versions, version, packageHash)
            case None => true
            case Some((found, rest)) =>
              var downgraded := DowngradeRecord(current, found, rest, now);
              Live(downgraded) && SwitchVersions(downgraded, current)
  {
    SwitchHistoryIsDerived(current.versions, next.pkg, current, now, current.versions);
    SelectFinds(current.versions, version, packageHash);
    match SelectSnapshot(current.versions, version, packageHash)
    case None =>
    case Some((found, rest)) =>
      DowngradeIsSwitch(current, found, rest, now);
      SwitchHistoryIsDerived(rest, found.pkg, current, now, current.versions);
  }

  // ---------------------------------------------------------------------------
  // Upgrade, then restore
  // ---------------------------------------------------------------------------

  /** The binding the data store proposes when it takes a retained generation back into use. */
  function RestoredBinding(retained: Binding, current: Binding): Binding {
    retained.(revision := current.revision + 1)
  }

  /** After an upgrade the replaced package is listed, once, with the generation it used. */
  lemma ReplacedPackageIsListed(existing: seq<PackageVersion>, current: PluginRecord, next: Package, generation: string,
                                now: Time)
    requires current.pkg.packageHash != "" && current.pkg.packageHash != next.packageHash
    ensures var bound := BindPackage(SwitchHistory(existing, next.packageHash, SnapshotOf(current, now)),
                                     current.pkg.packageHash, generation);
            && PackageVersion(generation, current.pkg, now) in bound
            && (forall v <- bound :: v.pkg.packageHash == current.pkg.packageHash ==>
                  v == PackageVersion(generation, current.pkg, now))
  {
    var versions := SwitchHistory(existing, next.packageHash, SnapshotOf(current, now));
    var bound := BindPackage(versions, current.pkg.packageHash, generation);
    var kept := Without(Without(existing, next.packageHash), current.pkg.packageHash);
    assert versions == kept + [SnapshotOf(current, now)];
    assert bound[|bound| - 1] == PackageVersion(generation, current.pkg, now);
    assert forall j :: 0 <= j < |kept| ==> kept[j] in kept;
    forall v <- bound | v.pkg.packageHash == current.pkg.packageHash
      ensures v == PackageVersion(generation, current.pkg, now) {
      var i :| 0 <= i < |bound| && bound[i] == v;
    }
  }

  /** The version list a downgrade is built from always offers the replaced package after an upgrade. */
  lemma SelectReplaced(versions: seq<PackageVersion>, target: PackageVersion)
    requires target in versions && target.pkg.packageHash != ""
    requires forall v <- versions :: v.pkg.packageHash == target.pkg.packageHash ==> v == target
    ensures SelectSnapshot(versions, "", target.pkg.packageHash).Some?
    ensures SelectSnapshot(versions, "", target.pkg.packageHash).value.0 == target
  {
    SelectFinds(versions, "", target.pkg.packageHash);
  }

  /** The two sides of a package change as the store validates them: identity, shape, and what may be stored. */
  ghost predicate Storable(p: Platform, r: PluginRecord, b: Binding) {
    && IdentityValid(p, r) && ValidBinding(b) && b.state.Active? && b.instance == r.instance
    && DeclaredShape(p, r.pkg).Some? && CheckRecordShape(p, r, b, DeclaredShape(p, r.pkg).value).Pass?
  }

  ghost predicate AllAcceptable(p: Platform, owner: string, pkg: Package, versions: seq<PackageVersion>) {
    && p.acceptable(owner, pkg) && p.decode(pkg.canonical).Some?
    && forall v <- versions :: p.acceptable(owner, v.pkg) && p.decode(v.pkg.canonical).Some? && Dated(v.activatedAt)
  }

  lemma UpgradeFacts(p: Platform, s: Catalog, owner: string, expected: PluginRecord, next: PluginRecord,
                     previous: Binding, active: Binding, now: Time, external: bool)
    requires CommitVersion(p, s, owner, expected, next, previous, active, None, now, external).Success?
    requires Key(owner, expected.instance) in s.records && s.records[Key(owner, expected.instance)] == expected
    ensures var stored := CommitVersion(p, s, owner, expected, next, previous, active, None, now, external).value.1;
            && Storable(p, expected, previous) && Storable(p, stored, active)
            && expected.pkg.version != next.pkg.version && active.revision == previous.revision + 1
            && stored.publisherID == expected.publisherID && stored.pluginID == expected.pluginID
            && !Blank(stored.instance)
            && AllAcceptable(p, owner, next.pkg, next.versions)
  {
    hide Blank, BindPackage, ValidBinding, Dated, Nanos;
    var r := CommitVersion(p, s, owner, expected, next, previous, active, None, now, external);
    var bound := BoundPackages(next.versions, expected.pkg.packageHash, previous.generation);
    forall v <- next.versions
      ensures p.acceptable(owner, v.pkg) && p.decode(v.pkg.canonical).Some? && Dated(v.activatedAt) {
      var i :| 0 <= i < |next.versions| && next.versions[i] == v;
    }
  }

  lemma BoundPackages(versions: seq<PackageVersion>, packageHash: string, generation: string)
    returns (bound: seq<PackageVersion>)
    ensures bound == BindPackage(versions, packageHash, generation) && |bound| == |versions|
    ensures forall i :: 0 <= i < |versions| ==>
              bound[i] in bound && bound[i].pkg == versions[i].pkg && bound[i].activatedAt == versions[i].activatedAt
  {
    bound := BindPackage(versions, packageHash, generation);
  }

  /** A restore commits whenever the package and data it asks for are both on record. */
  lemma RestoreCommits(p: Platform, s: Catalog, owner: string, current: PluginRecord, next: PluginRecord,
                       active: Binding, retained: Binding, now: Time)
    requires var key := Key(owner, current.instance);
             && key in s.records && s.records[key] == current && Live(current) && current.owner == owner
             && Readable(p, current)
             && key in s.bindings && s.bindings[key] == active && Storable(p, current, active)
             && Slot(key, retained.generation) in s.history
             && s.history[Slot(key, retained.generation)].binding == retained
             && HistoryDecodes(p, Slot(key, retained.generation), s.history[Slot(key, retained.generation)])
             && Slot(key, active.generation) !in s.history
    requires next.(pkg := current.pkg, versions := current.versions, updatedAt := current.updatedAt) == current
    requires Storable(p, next, retained) && AllAcceptable(p, owner, next.pkg, next.versions) && !Blank(next.instance)
    requires next.pkg.version != current.pkg.version && retained.generation != active.generation
    requires UsesGeneration(current, next.pkg, retained.generation)
    requires now != ZERO_TIME && Dated(now) && active.revision < MAX_INT64
    requires current.revisions.management < MAX_INT64 && current.revisions.revokeEpoch < MAX_INT64
    ensures CommitVersion(p, s, owner, current, next, active, RestoredBinding(retained, active), Some(retained), now,
                          false).Success?
  {
    hide Blank, UsesGeneration, HistoryDecodes, BindPackage, IdentityValid, Dated, Nanos;
    var bound := BoundPackages(next.versions, current.pkg.packageHash, active.generation);
    forall v <- bound ensures p.decode(v.pkg.canonical).Some? && Dated(v.activatedAt) {
      var i :| 0 <= i < |bound| && bound[i] == v;
      assert next.versions[i] in next.versions;
    }
  }

  /** What a committed restore shows about its request. */
  lemma RestoreNeeds(p: Platform, s: Catalog, owner: string, current: PluginRecord, next: PluginRecord, active: Binding,
                     restored: Binding, retained: Binding, now: Time)
    requires CommitVersion(p, s, owner, current, next, active, restored, Some(retained), now, false).Success?
    ensures var slot := Slot(Key(owner, current.instance), retained.generation);
            && now != ZERO_TIME && Dated(now) && active.revision < MAX_INT64
            && current.revisions.management < MAX_INT64 && current.revisions.revokeEpoch < MAX_INT64
            && slot in s.history && HistoryDecodes(p, slot, s.history[slot])
  {
    hide CheckRecordShape, ValidBinding, IdentityValid, HistoryDecodes, BindPackage, UsesGeneration, Dated, Blank,
         Nanos;
  }

  /** The downgrade the host asks for right after an upgrade. */
  function Downgrade(p: Platform, s: Catalog, owner: string, stored: PluginRecord, packageHash: string,
                     previous: Binding, active: Binding, later: Time): Result<(Catalog, PluginRecord), Error>
  {
    match SelectSnapshot(stored.versions, "", packageHash)
    case None => Failure(RecordNotFound)
    case Some((found, rest)) =>
      CommitVersion(p, s, owner, stored, DowngradeRecord(stored, found, rest, later), active,
                    RestoredBinding(previous, active),
                    Some(previous), later, false)
  }

  /**
   * After a committed upgrade the replaced package is selected with the generation it used, and the downgrade to it
   * commits exactly if the upgrade's time was stored as a positive number, the downgrade's can be spelled and is not
   * the zero time, and no revision has reached its bound. It then undoes the upgrade: the original generation is in use
   * again under the original package, the upgraded generation is retained for it, and the way back to the upgraded
   * package is listed.
   */
  lemma UpgradeThenRestore(p: Platform, s: Catalog, owner: string, expected: PluginRecord, next: PluginRecord,
                           previous: Binding, active: Binding, now: Time, external: bool, later: Time)
    requires Inv(p, s)
    requires Key(owner, expected.instance) in s.records && s.records[Key(owner, expected.instance)] == expected
    requires next.versions == SwitchHistory(expected.versions, next.pkg.packageHash, SnapshotOf(expected, now))
    requires expected.pkg.packageHash != "" && next.pkg.packageHash != ""
             && expected.pkg.packageHash != next.pkg.packageHash
    requires CommitVersion(p, s, owner, expected, next, previous, active, None, now, external).Success?
    ensures var key := Key(owner, expected.instance);
            var (s1, stored) := CommitVersion(p, s, owner, expected, next, previous, active, None, now, external).value;
            var selected := SelectSnapshot(stored.versions, "", expected.pkg.packageHash);
            var r := Downgrade(p, s1, owner, stored, expected.pkg.packageHash, previous, active, later);
            && selected.Some? && selected.value.0 == PackageVersion(previous.generation, expected.pkg, now)
            && (r.Success? <==>
                  && Nanos(now) > 0 && later != ZERO_TIME && Dated(later) && active.revision < MAX_INT64
                  && expected.revisions.management + 1 < MAX_INT64 && expected.revisions.revokeEpoch + 1 < MAX_INT64)
            && (r.Success? ==>
                  && r.value.0.bindings == s.bindings[key := RestoredBinding(previous, active)]
                  && r.value.1.pkg == expected.pkg && r.value.0.records == s.records[key := r.value.1]
                  && r.value.0.history
                      == s.history[Slot(key, active.generation) := HistoryRow(stored.(versions := []), active,
                                                                          Nanos(later))]
                  && r.value.0.resources == s.resources
                  && PackageVersion(active.generation, next.pkg, later) in r.value.1.versions)
  {
    hide CommitVersion, HistoryDecodes, Readable, BindingMatches, RowsFit, HistoryReadable, GenerationsUnique, Without,
         BindPackage, SelectSnapshot, SwitchHistory, Storable, AllAcceptable, Nanos, Dated;
    var key := Key(owner, expected.instance);
    var (s1, stored) := CommitVersion(p, s, owner, expected, next, previous, active, None, now, external).value;
    CommitVersionEffect(p, s, owner, expected, next, previous, active, None, now, external);
    UpgradeFacts(p, s, owner, expected, next, previous, active, now, external);
    RowAt(p, s, key);
    var target := PackageVersion(previous.generation, expected.pkg, now);
    ReplacedPackageIsListed(expected.versions, expected, next.pkg, previous.generation, now);
    SelectReplaced(stored.versions, target);
    var remaining := SelectSnapshot(stored.versions, "", expected.pkg.packageHash).value.1;
    var back := DowngradeRecord(stored, target, remaining, later);
    var restored := RestoredBinding(previous, active);
    assert UsesGeneration(stored, expected.pkg, previous.generation) by { assert target in stored.versions; }
    BackIsStorable(p, owner, expected, next, stored, previous, remaining, later);
    BoundIsNotRetained(s, key);
    if && Nanos(now) > 0 && later != ZERO_TIME && Dated(later) && active.revision < MAX_INT64
       && stored.revisions.management < MAX_INT64 && stored.revisions.revokeEpoch < MAX_INT64 {
      RestoreCommits(p, s1, owner, stored, back, active, previous, later);
    }
    if CommitVersion(p, s1, owner, stored, back, active, restored, Some(previous), later, false).Success? {
      RestoreNeeds(p, s1, owner, stored, back, active, restored, previous, later);
      CommitVersionEffect(p, s1, owner, stored, back, active, restored, Some(previous), later, false);
      ReplacedPackageIsListed(remaining, stored, expected.pkg, active.generation, later);
      HistoryComesBack(p, s, key, previous, active, HistoryRow(expected.(versions := []), previous, Nanos(now)),
                       HistoryRow(stored.(versions := []), active, Nanos(later)));
    }
  }

  lemma BoundIsNotRetained(s: Catalog, key: Key)
    requires GenerationsUnique(s.bindings, s.history) && key in s.bindings
    ensures Slot(key, s.bindings[key].generation) !in s.history
  {
  }

  lemma BackIsStorable(p: Platform, owner: string, expected: PluginRecord, next: PluginRecord, stored: PluginRecord,
                       previous: Binding, remaining: seq<PackageVersion>, later: Time)
    requires Storable(p, expected, previous)
    requires stored.publisherID == expected.publisherID && stored.pluginID == expected.pluginID
             && stored.instance == expected.instance
    requires stored.pkg == next.pkg
             && stored.versions == BindPackage(next.versions, expected.pkg.packageHash, previous.generation)
    requires AllAcceptable(p, owner, next.pkg, next.versions)
    requires SelectSnapshot(stored.versions, "", expected.pkg.packageHash).Some?
    requires SelectSnapshot(stored.versions, "", expected.pkg.packageHash).value.0.pkg == expected.pkg
    requires remaining == SelectSnapshot(stored.versions, "", expected.pkg.packageHash).value.1
    ensures var back := DowngradeRecord(stored, SelectSnapshot(stored.versions, "", expected.pkg.packageHash).value.0,
                                        remaining, later);
            Storable(p, back, previous) && (Dated(later) ==> AllAcceptable(p, owner, back.pkg, back.versions))
  {
    hide SelectSnapshot, BindPackage, ValidBinding, Dated;
    var found := SelectSnapshot(stored.versions, "", expected.pkg.packageHash).value.0;
    SelectFinds(stored.versions, "", expected.pkg.packageHash);
    var bound := BoundPackages(next.versions, expected.pkg.packageHash, previous.generation);
    forall v <- bound
      ensures p.acceptable(owner, v.pkg) && p.decode(v.pkg.canonical).Some? && Dated(v.activatedAt) {
      var i :| 0 <= i < |bound| && bound[i] == v;
      assert next.versions[i] in next.versions;
    }
    assert found in bound;
  }

  lemma HistoryComesBack(p: Platform, s: Catalog, key: Key, previous: Binding, active: Binding, row: HistoryRow,
                         row': HistoryRow)
    requires Slot(key, previous.generation) !in s.history && Slot(key, active.generation) !in s.history
    requires previous.generation != active.generation
    ensures MovedHistory(MovedHistory(s.history, key, active.generation, previous.generation, row),
                         key, previous.generation, active.generation, row')
            == s.history[Slot(key, active.generation) := row']
  {
  }
}
