/**
 * The control store itself: tables held in fields, each operation one transaction that works on its
 * own copy of the tables and either commits that copy or leaves the fields as they were.
 */
module ControlStore {
  import opened Outcomes
  import opened ControlRows
  import opened DataCatalog
  import opened FileGrants

  /** The transaction did what the specification says: committed its tables and value, or rolled back with its error. */
  ghost predicate Committed<T, E>(before: Catalog, after: Catalog, spec: Result<(Catalog, T), E>, r: Result<T, E>) {
    match spec
    case Success((tables, value)) => after == tables && r == Success(value)
    case Failure(e) => after == before && r == Failure(e)
  }

  ghost predicate CommittedAlone<E>(before: Catalog, after: Catalog, spec: Result<Catalog, E>, r: Result<(), E>) {
    match spec
    case Success(tables) => after == tables && r == Success(())
    case Failure(e) => after == before && r == Failure(e)
  }

  // ---------------------------------------------------------------------------
  // Loops over a version history
  // ---------------------------------------------------------------------------

  method RebindSharedVersionData(versions: seq<PackageVersion>, previous: string, next: string)
    returns (out: seq<PackageVersion>)
    ensures out == Rebind(versions, previous, next)
  {
    out := versions;
    for index := 0 to |versions|
      invariant |out| == |versions|
      invariant forall i :: 0 <= i < index ==> out[i] == Rebind(versions, previous, next)[i]
      invariant forall i :: index <= i < |out| ==> out[i] == versions[i]
    {
      if out[index].generation == previous {
        out := out[index := out[index].(generation := next)];
      }
    }
  }

  method BindPreviousPackageData(versions: seq<PackageVersion>, packageHash: string, generation: string)
    returns (out: seq<PackageVersion>)
    ensures out == BindPackage(versions, packageHash, generation)
  {
    out := versions;
    for index := 0 to |versions|
      invariant |out| == |versions|
      invariant forall i :: 0 <= i < index ==> out[i] == BindPackage(versions, packageHash, generation)[i]
      invariant forall i :: index <= i < |out| ==> out[i] == versions[i]
    {
      if out[index].pkg.packageHash == packageHash {
        out := out[index := out[index].(generation := generation)];
      }
    }
  }

  method VersionUsesGeneration(current: PluginRecord, target: Package, generation: string) returns (found: bool)
    ensures found <==> UsesGeneration(current, target, generation)
  {
    for index := 0 to |current.versions|
      invariant forall v <- current.versions[..index] ::
          !(v.pkg.packageHash == target.packageHash && v.pkg.manifestHash == target.manifestHash
            && v.pkg.fingerprint == target.fingerprint && v.generation == generation)
    {
      var v := current.versions[index];
      if v.pkg.packageHash == target.packageHash && v.pkg.manifestHash == target.manifestHash
         && v.pkg.fingerprint == target.fingerprint && v.generation == generation {
        return true;
      }
      assert current.versions[..index + 1] == current.versions[..index] + [v];
    }
    assert current.versions[..|current.versions|] == current.versions;
    return false;
  }

  // ---------------------------------------------------------------------------
  // The store
  // ---------------------------------------------------------------------------

  class Store {
    const platform: Platform
    var records: map<Key, PluginRecord>
    var bindings: map<Key, Binding>
    var history: map<Slot, HistoryRow>
    var resources: map<ResourceKey, FileResource>

    function Tables(): Catalog
      reads this
    {
      Catalog(records, bindings, history, resources)
    }

    constructor (platform: Platform, tables: Catalog)
      ensures this.platform == platform && Tables() == tables
    {
      this.platform := platform;
      records, bindings, history, resources := tables.records, tables.bindings, tables.history, tables.resources;
    }

    method InstallCommit(owner: string, record: PluginRecord, expected: Option<Binding>, next: Binding, shape: Shape,
                         now: Time)
      returns (r: Result<PluginRecord, Error>)
      modifies this
      ensures Committed(old(Tables()), Tables(),
                        Install(platform, old(Tables()), owner, record, expected, next, shape, now), r)
    {
      if !record.enable.Enabled? || record.revisions.management != 0 || record.deletedAt.Some?
         || record.instance != next.instance || !next.state.Active? || !ValidBinding(next) {
        return Failure(InvalidArgument);
      }
      match expected {
        case None =>
          if next.revision != 1 { return Failure(BindingConflict); }
        case Some(e) =>
          if !ValidBinding(e) || !e.state.Retained? { return Failure(InvalidArgument); }
          var reactivated := e.(state := Active, revision := e.revision + 1, retainedAt := None, expiresAt := None);
          if reactivated != next { return Failure(BindingConflict); }
      }
      var key := Key(owner, record.instance);
      var epoch := 1;
      var previous := ReadAny(platform, Tables(), key);
      if previous.Success? {
        if Live(previous.value) { return Failure(BindingConflict); }
        epoch := previous.value.revisions.revokeEpoch;
      } else if previous.error != RecordNotFound {
        return Failure(previous.error);
      }
      var actual :- ReadBinding(Tables(), key);
      if actual != expected { return Failure(BindingConflict); }
      var first := record.(disabledReason := "", enabledAt := Some(now),
                           revisions := record.revisions.(revokeEpoch := epoch));
      var prepared :- PreparePut(platform, owner, first, None, now);
      :- CheckRecordShape(platform, prepared, next, shape);
      if !Readable(platform, prepared) { return Failure(Incompatible); }
      if expected.None? && key in records {
        // The tombstone goes, and its rows with it; its epoch lives on in the new record.
        var left := Cascade(Tables(), key);
        records, bindings, history, resources := left.records, left.bindings, left.history, left.resources;
      }
      records := records[key := prepared];
      bindings := bindings[key := next];
      r := Success(prepared);
    }

    method SwapImport(owner: string, expectedRevision: nat, expected: Option<Binding>, next: Binding, shape: Shape,
                      now: Time)
      returns (r: Result<(), Error>)
      modifies this
      ensures CommittedAlone(old(Tables()), Tables(),
                             DataCatalog.SwapImport(platform, old(Tables()), owner, expectedRevision, expected, next,
                                                    shape, now), r)
    {
      if !ValidBinding(next) || !next.state.Active? { return Failure(InvalidArgument); }
      var key := Key(owner, next.instance);
      var record :- ReadLive(platform, Tables(), key);
      :- CheckRecordShape(platform, record, next, shape);
      if record.revisions.management != expectedRevision {
        return Failure(ManagementRevisionConflict(expectedRevision, record.revisions.management));
      }
      if record.enable.Enabled? { return Failure(BindingConflict); }
      var actual :- ReadBinding(Tables(), key);
      match expected {
        case None =>
          if actual.Some? || next.revision != 1 { return Failure(BindingConflict); }
        case Some(e) =>
          if actual != expected || next.revision != e.revision + 1 { return Failure(BindingConflict); }
          var versions := RebindSharedVersionData(record.versions, e.generation, next.generation);
          record := record.(versions := versions);
      }
      if !Dated(now) { return Failure(Incompatible); }
      bindings := bindings[key := next];
      record := record.(revisions := record.revisions.(management := record.revisions.management + 1));
      record := record.(revisions := record.revisions.(revokeEpoch := record.revisions.revokeEpoch + 1));
      record := record.(updatedAt := now);
      records := records[key := record];
      r := Success(());
    }

    method BindRetained(owner: string, expected: Binding, targetInstance: string, expectedRevision: nat, shape: Shape,
                        now: Time)
      returns (r: Result<Binding, Error>)
      modifies this
      ensures Committed(old(Tables()), Tables(),
                        DataCatalog.BindRetained(platform, old(Tables()), owner, expected, targetInstance,
                                                 expectedRevision, shape, now), r)
    {
      var source := Key(owner, expected.instance);
      var actual :- ReadBinding(Tables(), source);
      var hash := platform.hashShape(shape);
      if hash.None? { return Failure(InvalidArgument); }
      if actual != Some(expected) || !expected.state.Retained? || expected.shapeHash != hash.value {
        return Failure(BindingConflict);
      }
      var instance := Trim(targetInstance);
      if instance == "" || instance == expected.instance { return Failure(InvalidArgument); }
      var target := Key(owner, instance);
      var record :- ReadLive(platform, Tables(), target);
      :- CheckRecordShape(platform, record, expected.(instance := instance), shape);
      if record.revisions.management != expectedRevision {
        return Failure(ManagementRevisionConflict(expectedRevision, record.revisions.management));
      }
      if record.enable.Enabled? { return Failure(BindingConflict); }
      var occupied :- ReadBinding(Tables(), target);
      if occupied.Some? { return Failure(BindingConflict); }
      if !Dated(now) { return Failure(Incompatible); }
      bindings := bindings - {source};
      var active := expected.(instance := instance, state := Active, revision := expected.revision + 1);
      active := active.(retainedAt := None, expiresAt := None);
      bindings := bindings[target := active];
      records := records[target := Advance(record, now)];
      r := Success(active);
    }

    method DeleteRetained(owner: string, expected: Binding) returns (r: Result<(), Error>)
      modifies this
      ensures CommittedAlone(old(Tables()), Tables(), DataCatalog.DeleteRetained(old(Tables()), owner, expected), r)
    {
      var key := Key(owner, expected.instance);
      :- CheckRetained(Tables(), owner, expected);
      history := DropHistory(history, {key});
      bindings := bindings - {key};
      r := Success(());
    }

    /** All listed bindings are checked before the first one is deleted. */
    method CleanupExpired(owner: string, now: Time, expected: seq<Binding>) returns (r: Result<seq<Binding>, Error>)
      modifies this
      ensures match DataCatalog.CleanupExpired(old(Tables()), owner, now, expected)
              case Success(tables) => Tables() == tables && r == Success(expected)
              case Failure(e) => Tables() == old(Tables()) && r == Failure(e)
    {
      hide CheckRetained;
      for index := 0 to |expected|
        invariant Tables() == old(Tables())
        invariant CheckExpired(Tables(), owner, now, expected) == CheckExpired(Tables(), owner, now, expected[index..])
      {
        :- CheckRetained(Tables(), owner, expected[index]);
        if expected[index].expiresAt.None? || expected[index].expiresAt.value > now { return Failure(BindingConflict); }
        assert expected[index..][1..] == expected[index + 1..];
      }
      var deleted := [];
      for index := 0 to |expected|
        invariant deleted == expected[..index]
        invariant records == old(records) && resources == old(resources)
        invariant bindings == old(bindings) - (set b | b in expected[..index] :: Key(owner, b.instance))
        invariant history == DropHistory(old(history), set b | b in expected[..index] :: Key(owner, b.instance))
      {
        assert expected[..index + 1] == expected[..index] + [expected[index]];
        history := DropHistory(history, {Key(owner, expected[index].instance)});
        bindings := bindings - {Key(owner, expected[index].instance)};
        deleted := deleted + [expected[index]];
      }
      assert expected[..|expected|] == expected;
      r := Success(deleted);
    }

    method CommitUninstall(owner: string, instance: string, deleteData: bool, expectedRevision: nat,
                           retainUntil: Option<Time>, now: Time)
      returns (r: Result<Revisions, Error>)
      modifies this
      ensures Committed(old(Tables()), Tables(),
                        Uninstall(platform, old(Tables()), owner, instance, deleteData, expectedRevision, retainUntil,
                                  now), r)
    {
      var key := Key(owner, instance);
      var record :- ReadLive(platform, Tables(), key);
      if expectedRevision == 0 || record.revisions.management != expectedRevision {
        return Failure(ManagementRevisionConflict(expectedRevision, record.revisions.management));
      }
      if !Dated(now) { return Failure(Incompatible); }
      record := record.(revisions := record.revisions.(management := record.revisions.management + 1,
                                                       revokeEpoch := record.revisions.revokeEpoch + 1));
      record := record.(updatedAt := now, deletedAt := Some(now), enabledAt := None);
      records := records[key := record];
      if deleteData {
        history := DropHistory(history, {key});
        bindings := bindings - {key};
      } else if key in bindings {
        var b := bindings[key];
        bindings := bindings[key := b.(state := Retained, revision := b.revision + 1, retainedAt := Some(Nanos(now)),
                                       expiresAt := Column(retainUntil))];
      }
      r := Success(record.revisions);
    }

    /** Upgrade and restore: the package identity and the active binding move at one commit point. */
    method CommitPluginDataVersion(owner: string, expected: PluginRecord, next: PluginRecord, previous: Binding,
                                   active: Binding, retained: Option<Binding>, now: Time, external: bool)
      returns (r: Result<PluginRecord, Error>)
      modifies this
      ensures Committed(old(Tables()), Tables(),
                        CommitVersion(platform, old(Tables()), owner, expected, next, previous, active, retained, now,
                                      external), r)
    {
      hide Readable, IdentityValid, ValidBinding, CheckRecordShape, PreparePut, HistoryForVersion, BindPackage;
      if now == ZERO_TIME || expected.owner != owner || next.owner != owner
         || expected.instance != next.instance || previous.instance != next.instance || active.instance != next.instance
         || expected.publisherID != next.publisherID || expected.pluginID != next.pluginID
         || expected.pkg.version == next.pkg.version
         || !previous.state.Active? || !active.state.Active? || previous.generation == active.generation
         || previous.revision >= MAX_INT64 || active.revision != previous.revision + 1 || expected.deletedAt.Some?
         || next.deletedAt.Some?
         || expected.revisions.management >= MAX_INT64 || expected.revisions.revokeEpoch >= MAX_INT64 {
        return Failure(InvalidArgument);
      }
      if !IdentityValid(platform, next) || !ValidBinding(previous) || !ValidBinding(active) {
        return Failure(InvalidArgument);
      }
      var shape := DeclaredShape(platform, next.pkg);
      if shape.None? { return Failure(InvalidArgument); }
      :- CheckRecordShape(platform, next, active, shape.value);
      var key := Key(owner, expected.instance);
      var current :- ReadLive(platform, Tables(), key);
      if current.pkg.fingerprint != expected.pkg.fingerprint || current.revisions != expected.revisions
          || current.enable != expected.enable {
        return Failure(AuthorizationRevisionConflict);
      }
      if !IdentityValid(platform, current) { return Failure(InvalidArgument); }
      var actual :- ReadBinding(Tables(), key);
      if actual != Some(previous) { return Failure(BindingRevisionConflict); }
      var oldShape := DeclaredShape(platform, current.pkg);
      if oldShape.None? { return Failure(InvalidArgument); }
      :- CheckRecordShape(platform, current, previous, oldShape.value);
      var txHistory :- TakeGeneration(key, current, next, active, retained);
      var candidate := next;
      if !external { candidate := candidate.(enable := current.enable, disabledReason := current.disabledReason); }
      var stored :- PreparePut(platform, owner, candidate, Some(current), now);
      var versions := BindPreviousPackageData(stored.versions, current.pkg.packageHash, previous.generation);
      stored := stored.(versions := versions);
      var slot := Slot(key, previous.generation);
      if slot in txHistory { return Failure(ConstraintViolation); }
      txHistory := txHistory[slot := HistoryRow(current.(versions := []), previous, Nanos(now))];
      if !Readable(platform, stored) { return Failure(Incompatible); }
      history := txHistory;
      bindings := bindings[key := active];
      records := records[key := stored];
      r := Success(stored);
    }

    /** The history table without the generation a restore takes back, or a check that an upgrade's is new to it. */
    method TakeGeneration(key: Key, current: PluginRecord, next: PluginRecord, active: Binding,
                          retained: Option<Binding>)
      returns (r: Result<map<Slot, HistoryRow>, Error>)
      ensures r == HistoryForVersion(platform, Tables(), key, current, next, active, retained)
    {
      match retained {
        case Some(binding) =>
          var slot := Slot(key, binding.generation);
          if slot !in history { return Failure(BindingConflict); }
          var row := history[slot];
          if !HistoryDecodes(platform, slot, row) { return Failure(Incompatible); }
          var uses := VersionUsesGeneration(current, next.pkg, binding.generation);
          if row.binding != binding || active.generation != binding.generation || active.shapeHash != binding.shapeHash
              || !uses {
            return Failure(BindingConflict);
          }
          r := Success(history - {slot});
        case None =>
          var clashes := set slot | slot in history && slot.key.owner == key.owner
              && slot.generation == active.generation;
          if clashes != {} {
            var clash :| clash in clashes;
            return Failure(BindingConflict);
          }
          assert forall slot <- history :: slot.key.owner == key.owner && slot.generation == active.generation ==>
                   slot in clashes;
          r := Success(history);
      }
    }

    method PutPlugin(owner: string, record: PluginRecord, now: Time) returns (r: Result<PluginRecord, Error>)
      modifies this
      ensures Committed(old(Tables()), Tables(), DataCatalog.PutPlugin(platform, old(Tables()), owner, record, now), r)
    {
      var key := Key(owner, record.instance);
      var existing :- ReadAny(platform, Tables(), key);
      if !Live(existing) { return Failure(RecordNotFound); }
      var prepared :- PreparePut(platform, owner, record, Some(existing), now);
      var stored :- BindVersionSwitchData(key, prepared, existing);
      if !Readable(platform, stored) { return Failure(Incompatible); }
      records := records[key := stored];
      r := Success(stored);
    }

    method UpdateExternalPackage(owner: string, record: PluginRecord, expectedRevision: nat, now: Time)
      returns (r: Result<PluginRecord, Error>)
      modifies this
      ensures Committed(old(Tables()), Tables(),
                        UpdateExternal(platform, old(Tables()), owner, record, expectedRevision, now), r)
    {
      var key := Key(owner, record.instance);
      var existing :- ReadLive(platform, Tables(), key);
      if Blank(record.pkg.fingerprint) || Blank(record.pkg.packageHash) || Blank(record.instance)
          || expectedRevision == 0
         || (record.owner != "" && record.owner != owner) || record.pkg.manifestHash == "" {
        return Failure(InvalidRecord);
      }
      if existing.revisions.management != expectedRevision {
        return Failure(ManagementRevisionConflict(expectedRevision, existing.revisions.management));
      }
      var prepared :- PreparePut(platform, owner, record, Some(existing), now);
      var stored :- BindVersionSwitchData(key, prepared, existing);
      if !Readable(platform, stored) { return Failure(Incompatible); }
      records := records[key := stored];
      r := Success(stored);
    }

    method BindVersionSwitchData(key: Key, record: PluginRecord, previous: PluginRecord)
      returns (r: Result<PluginRecord, Error>)
      ensures r == BindVersionSwitch(Tables(), key, record, previous)
    {
      if record.pkg.packageHash == previous.pkg.packageHash { return Success(record); }
      var binding :- ReadBinding(Tables(), key);
      if binding.None? { return Failure(BindingNotFound); }
      var versions := BindPreviousPackageData(record.versions, previous.pkg.packageHash, binding.value.generation);
      r := Success(record.(versions := versions));
    }

    /** Exchanges an installed instance's dataset with a retained one of the same shape. */
    method CommitRetainedRecovery(owner: string, plan: RecoveryPlan, shape: Shape, clock: Time)
      returns (r: Result<RecoveryResult, Error>)
      modifies this
      ensures Committed(old(Tables()), Tables(), RecoverRetained(platform, old(Tables()), owner, plan, shape, clock), r)
    {
      var next :- RecoveryOutcome(platform, plan);
      if owner != plan.owner { return Failure(RetainedRecoveryConflict); }
      var sourceKey, targetKey := Key(owner, plan.source.instance), Key(owner, plan.target.instance);
      var source :- ReadBinding(Tables(), sourceKey);
      if source != Some(plan.source) || (plan.source.expiresAt.Some? && plan.source.expiresAt.value <= clock) {
        return Failure(RetainedRecoveryConflict);
      }
      var bound :- ReadBinding(Tables(), targetKey);
      if bound != Some(plan.target) { return Failure(RetainedRecoveryConflict); }
      var sourceRecord :- ReadAny(platform, Tables(), sourceKey);
      if Live(sourceRecord) { return Failure(RetainedRecoveryConflict); }
      var target :- ReadLive(platform, Tables(), targetKey);
      if !target.enable.DisabledByUser? || target.revisions.management != plan.targetRevision
          || target.pkg.fingerprint != plan.targetFingerprint {
        return Failure(RetainedRecoveryConflict);
      }
      :- CheckRecordShape(platform, target, plan.target, shape);
      if sourceRecord.publisherID != target.publisherID || sourceRecord.pluginID != target.pluginID {
        return Failure(ShapeMismatch);
      }
      if !Dated(clock) { return Failure(Incompatible); }
      bindings := bindings[sourceKey := next.retained.(retainedAt := Column(next.retained.retainedAt))];
      bindings := bindings[targetKey := next.active];
      var targetVersions := RebindSharedVersionData(target.versions, plan.target.generation, next.active.generation);
      var sourceVersions := RebindSharedVersionData(sourceRecord.versions, plan.source.generation,
                                                    next.retained.generation);
      records := records[sourceKey := sourceRecord.(versions := sourceVersions)];
      records := records[targetKey := Advance(target, clock).(versions := targetVersions)];
      r := Success(next);
    }

    method SetEnableState(owner: string, instance: string, state: EnableState, reason: string, now: Time)
      returns (r: Result<PluginRecord, Error>)
      modifies this
      ensures Committed(old(Tables()), Tables(),
                        DataCatalog.SetEnableState(platform, old(Tables()), owner, instance, state, reason, now), r)
    {
      var key := Key(owner, instance);
      var record :- ReadLive(platform, Tables(), key);
      if !Dated(now) { return Failure(Incompatible); }
      record := Advance(record.(enable := state, disabledReason := reason), now);
      record := record.(enabledAt := if state.Enabled? then Some(now) else None);
      records := records[key := record];
      r := Success(record);
    }

    method BumpRevokeEpoch(owner: string, instance: string, now: Time) returns (r: Result<PluginRecord, Error>)
      modifies this
      ensures Committed(old(Tables()), Tables(),
                        DataCatalog.BumpRevokeEpoch(platform, old(Tables()), owner, instance, now), r)
    {
      var key := Key(owner, instance);
      var record :- ReadLive(platform, Tables(), key);
      if !Dated(now) { return Failure(Incompatible); }
      record := record.(revisions := record.revisions.(revokeEpoch := record.revisions.revokeEpoch + 1),
                        updatedAt := now);
      records := records[key := record];
      r := Success(record);
    }

    method AbortInstall(owner: string, instance: string) returns (r: Result<(), Error>)
      modifies this
      ensures CommittedAlone(old(Tables()), Tables(), DataCatalog.AbortInstall(old(Tables()), owner, instance), r)
    {
      var key := Key(owner, instance);
      if key !in records { return Failure(RecordNotFound); }
      records, bindings := records - {key}, bindings - {key};
      history := map slot | slot in history && slot.key != key :: history[slot];
      resources := map k | k in resources && k.Plugin() != key :: resources[k];
      r := Success(());
    }

    method CreateSelectedResource(k: ResourceKey, grant: FileResource, payloadValid: bool, expected: Revisions,
                                  now: Time)
      returns (r: Result<(), GrantError>)
      modifies this
      ensures CommittedAlone(old(Tables()), Tables(), Create(old(Tables()), k, grant, payloadValid, expected, now), r)
    {
      if !ValidKey(k) || grant.fingerprint == "" || grant.revision != 1 || grant.revokeEpoch > MAX_INT64
          || grant.revokedAt.Some?
         || now == ZERO_TIME || grant.expiresAt <= Nanos(now) || !payloadValid {
        return Failure(StateConflict);
      }
      var plugin := k.Plugin();
      if plugin !in records || !Live(records[plugin]) { return Failure(GrantNotFound); }
      var record := records[plugin];
      if record.revisions != expected || record.pkg.fingerprint != grant.fingerprint
          || record.revisions.revokeEpoch != grant.revokeEpoch {
        return Failure(RevisionConflict);
      }
      if !record.enable.Enabled? { return Failure(StateConflict); }
      var active := ActiveIn(resources, k, Nanos(now), record.pkg.fingerprint, record.revisions.revokeEpoch);
      if |active| >= ACTIVE_LIMIT { return Failure(GrantLimit); }
      var remaining := resources - Evicted(resources, k, active);
      if k in remaining { return Failure(DuplicateGrant); }
      resources := remaining[k := grant];
      r := Success(());
    }

    method ReadSelectedResource(k: ResourceKey) returns (r: Result<FileResource, GrantError>)
      ensures r == ReadGrant(Tables(), k)
    {
      if !ValidKey(k) || k !in resources { return Failure(GrantNotFound); }
      var row := resources[k];
      if row.revision == 0 || row.revision > MAX_INT64 || row.revokeEpoch > MAX_INT64 || row.expiresAt <= 0
         || (row.revokedAt.Some? && row.revokedAt.value <= 0) || row.fingerprint == "" {
        return Failure(BadGrant);
      }
      r := Success(row);
    }

    /** Authority for a guarded file operation, held for the whole of its transaction. */
    method WithSelectedResource(k: ResourceKey, now: Time) returns (r: Result<FileResource, GrantError>)
      ensures r.Success? <==> now != ZERO_TIME && Usable(Tables(), k, now)
      ensures r.Success? ==> r.value == resources[k]
    {
      if now == ZERO_TIME { return Failure(StateConflict); }
      var row :- ReadSelectedResource(k);
      if row.revokedAt.Some? || row.expiresAt <= Nanos(now) { return Failure(StateConflict); }
      if k.Plugin() !in records || !Live(records[k.Plugin()]) { return Failure(GrantNotFound); }
      var record := records[k.Plugin()];
      if record.pkg.fingerprint != row.fingerprint || record.revisions.revokeEpoch != row.revokeEpoch
          || !record.enable.Enabled? {
        return Failure(StateConflict);
      }
      r := Success(row);
    }

    method RevokeSelectedResource(k: ResourceKey, expected: nat, now: Time) returns (r: Result<(), GrantError>)
      modifies this
      ensures CommittedAlone(old(Tables()), Tables(), Revoke(old(Tables()), k, expected, now), r)
    {
      if expected == 0 || expected >= MAX_INT64 || now == ZERO_TIME { return Failure(RevisionConflict); }
      var row :- ReadSelectedResource(k);
      if row.revokedAt.Some? && row.revision == expected + 1 { return Success(()); }
      if row.revision != expected || row.revokedAt.Some? { return Failure(RevisionConflict); }
      resources := resources[k := row.(revokedAt := Some(Nanos(now)), revision := row.revision + 1)];
      r := Success(());
    }
  }
}
