/**
 * What each transaction on the plugin-data catalog does to the tables, as a function from the
 * tables before to the tables after or the error that rolled the transaction back.
 */
module DataCatalog {
  import opened Outcomes
  import opened ControlRows

  datatype ResourceKey = ResourceKey(owner: string, user: string, instance: string, resource: string) {
    function Plugin(): Key { Key(owner, instance) }
  }

  /** A file grant, tied to the package and the revoke epoch it was created under. */
  datatype FileResource = FileResource(
    fingerprint: string, revokeEpoch: nat, revision: nat, expiresAt: Time, revokedAt: Option<Time>)

  datatype Catalog = Catalog(
    records: map<Key, PluginRecord>,
    bindings: map<Key, Binding>,
    history: map<Slot, HistoryRow>,
    resources: map<ResourceKey, FileResource>)

  // ---------------------------------------------------------------------------
  // Reading rows
  // ---------------------------------------------------------------------------

  function ReadAny(p: Platform, s: Catalog, key: Key): Result<PluginRecord, Error> {
    if key !in s.records then Failure(RecordNotFound)
    else if !Readable(p, s.records[key]) then Failure(Incompatible)
    else Success(s.records[key])
  }

  function ReadLive(p: Platform, s: Catalog, key: Key): Result<PluginRecord, Error> {
    if key in s.records && !Live(s.records[key]) then Failure(RecordNotFound) else ReadAny(p, s, key)
  }

  function ReadBinding(s: Catalog, key: Key): Result<Option<Binding>, Error> {
    if key !in s.bindings then
      Success(None)
    else
      :- Need(ValidBinding(s.bindings[key]), InvalidArgument);
      Success(Some(s.bindings[key]))
  }

  function DropHistory(history: map<Slot, HistoryRow>, keys: set<Key>): map<Slot, HistoryRow> {
    map slot | slot in history && slot.key !in keys :: history[slot]
  }

  /** Deleting a record row deletes, by foreign key, everything that refers to it. */
  function Cascade(s: Catalog, key: Key): Catalog {
    Catalog(s.records - {key}, s.bindings - {key}, DropHistory(s.history, {key}),
            map r | r in s.resources && r.Plugin() != key :: s.resources[r])
  }

  function Advance(r: PluginRecord, now: Time): PluginRecord {
    r.(updatedAt := now,
       revisions := r.revisions.(management := r.revisions.management + 1, revokeEpoch := r.revisions.revokeEpoch + 1))
  }

  function Activated(b: Binding, instance: string): Binding {
    b.(instance := instance, state := Active, revision := b.revision + 1, retainedAt := None, expiresAt := None)
  }

  // ---------------------------------------------------------------------------
  // Installing and removing instances
  // ---------------------------------------------------------------------------

  /** A first install, or with `expected` the reactivation of an instance whose data was retained. */
  function Install(p: Platform, s: Catalog, owner: string, record: PluginRecord, expected: Option<Binding>,
                   next: Binding, shape: Shape, now: Time): Result<(Catalog, PluginRecord), Error>
  {
    var key := Key(owner, record.instance);
    :- Need(record.enable.Enabled? && record.revisions.management == 0 && record.deletedAt.None?
            && record.instance == next.instance && next.state.Active? && ValidBinding(next), InvalidArgument);
    :- (match expected
        case None => Need(next.revision == 1, BindingConflict)
        case Some(e) => if !ValidBinding(e) || !e.state.Retained? then Fail(InvalidArgument)
                        else Need(next == Activated(e, e.instance), BindingConflict));
    var epoch :- (if key !in s.records then Success(1)
                  else if !Readable(p, s.records[key]) then Failure(Incompatible)
                  else if Live(s.records[key]) then Failure(BindingConflict)
                  else Success(s.records[key].revisions.revokeEpoch));
    var actual :- ReadBinding(s, key);
    :- Need(actual == expected, BindingConflict);
    var prepared :- PreparePut(p, owner,
                               record.(disabledReason := "", enabledAt := Some(now),
                                       revisions := record.revisions.(revokeEpoch := epoch)), None, now);
    :- CheckRecordShape(p, prepared, next, shape);
    :- Need(Readable(p, prepared), Incompatible);
    var base := if expected.None? && key in s.records then Cascade(s, key) else s;
    Success((base.(records := base.records[key := prepared], bindings := base.bindings[key := next]), prepared))
  }

  function Uninstall(p: Platform, s: Catalog, owner: string, instance: string, deleteData: bool, expectedRevision: nat,
                     retainUntil: Option<Time>, now: Time): Result<(Catalog, Revisions), Error>
  {
    var key := Key(owner, instance);
    var record :- ReadLive(p, s, key);
    :- Need(expectedRevision != 0 && record.revisions.management == expectedRevision,
            ManagementRevisionConflict(expectedRevision, record.revisions.management));
    :- Need(Dated(now), Incompatible);
    var deleted := Advance(record, now).(deletedAt := Some(now), enabledAt := None);
    var records := s.records[key := deleted];
    Success((if deleteData then
               s.(records := records, bindings := s.bindings - {key}, history := DropHistory(s.history, {key}))
             else if key in s.bindings then
               var b := s.bindings[key];
               s.(records := records,
                  bindings := s.bindings[key := b.(state := Retained, revision := b.revision + 1,
                                                   retainedAt := Some(Nanos(now)), expiresAt := Column(retainUntil))])
             else
               s.(records := records),
             deleted.revisions))
  }

  // ---------------------------------------------------------------------------
  // Replacing and retaining data
  // ---------------------------------------------------------------------------

  function SwapImport(p: Platform, s: Catalog, owner: string, expectedRevision: nat, expected: Option<Binding>,
                      next: Binding, shape: Shape, now: Time): Result<Catalog, Error>
  {
    var key := Key(owner, next.instance);
    :- Need(ValidBinding(next) && next.state.Active?, InvalidArgument);
    var record :- ReadLive(p, s, key);
    :- CheckRecordShape(p, record, next, shape);
    :- Need(record.revisions.management == expectedRevision,
            ManagementRevisionConflict(expectedRevision, record.revisions.management));
    :- Need(!record.enable.Enabled?, BindingConflict);
    var actual :- ReadBinding(s, key);
    :- Need(actual == expected
            && next.revision == (if expected.Some? then expected.value.revision + 1 else 1), BindingConflict);
    :- Need(Dated(now), Incompatible);
    var versions := if expected.Some? then Rebind(record.versions, expected.value.generation, next.generation)
        else record.versions;
    Success(s.(records := s.records[key := Advance(record, now).(versions := versions)],
               bindings := s.bindings[key := next]))
  }

  /** Moves a retained dataset from an uninstalled instance to an installed one that has none. */
  function BindRetained(p: Platform, s: Catalog, owner: string, expected: Binding, targetInstance: string,
                        expectedRevision: nat, shape: Shape, now: Time): Result<(Catalog, Binding), Error>
  {
    var source := Key(owner, expected.instance);
    var actual :- ReadBinding(s, source);
    var hash := p.hashShape(shape);
    :- Need(hash.Some?, InvalidArgument);
    :- Need(actual == Some(expected) && expected.state.Retained? && expected.shapeHash == hash.value, BindingConflict);
    var instance := Trim(targetInstance);
    :- Need(instance != "" && instance != expected.instance, InvalidArgument);
    var target := Key(owner, instance);
    var record :- ReadLive(p, s, target);
    :- CheckRecordShape(p, record, expected.(instance := instance), shape);
    :- Need(record.revisions.management == expectedRevision,
            ManagementRevisionConflict(expectedRevision, record.revisions.management));
    :- Need(!record.enable.Enabled?, BindingConflict);
    var occupied :- ReadBinding(s, target);
    :- Need(occupied.None?, BindingConflict);
    :- Need(Dated(now), Incompatible);
    var active := Activated(expected, instance);
    Success((s.(records := s.records[target := Advance(record, now)],
                bindings := (s.bindings - {source})[target := active]), active))
  }

  function CheckRetained(s: Catalog, owner: string, expected: Binding): Check<Error> {
    match ReadBinding(s, Key(owner, expected.instance))
    case Failure(e) => Fail(e)
    case Success(actual) => Need(actual == Some(expected) && expected.state.Retained?, BindingConflict)
  }

  function DropData(s: Catalog, keys: set<Key>): Catalog {
    s.(bindings := s.bindings - keys, history := DropHistory(s.history, keys))
  }

  function DeleteRetained(s: Catalog, owner: string, expected: Binding): Result<Catalog, Error> {
    var key := Key(owner, expected.instance);
    :- CheckRetained(s, owner, expected);
    Success(DropData(s, {key}))
  }

  /** The first listed binding that is not retained as described, or has not expired, aborts the cleanup. */
  function CheckExpired(s: Catalog, owner: string, now: Time, expected: seq<Binding>): Check<Error> {
    if expected == [] then
      Pass
    else
      var first := CheckRetained(s, owner, expected[0]);
      if first.Fail? then first
      else if expected[0].expiresAt.None? || expected[0].expiresAt.value > now then Fail(BindingConflict)
      else CheckExpired(s, owner, now, expected[1..])
  }

  function CleanupExpired(s: Catalog, owner: string, now: Time, expected: seq<Binding>): Result<Catalog, Error> {
    var keys := set b | b in expected :: Key(owner, b.instance);
    :- CheckExpired(s, owner, now, expected);
    Success(DropData(s, keys))
  }

  // ---------------------------------------------------------------------------
  // Changing the package
  // ---------------------------------------------------------------------------

  /** The history table once the generation to restore is taken out, or checked free of the new one. */
  function HistoryForVersion(p: Platform, s: Catalog, key: Key, current: PluginRecord, next: PluginRecord,
                             active: Binding, retained: Option<Binding>): Result<map<Slot, HistoryRow>, Error>
  {
    match retained
    case Some(r) =>
      var slot := Slot(key, r.generation);
      :- Need(slot in s.history, BindingConflict);
      :- Need(HistoryDecodes(p, slot, s.history[slot]), Incompatible);
      :- Need(s.history[slot].binding == r && active.generation == r.generation && active.shapeHash == r.shapeHash
              && UsesGeneration(current, next.pkg, r.generation), BindingConflict);
      Success(s.history - {slot})
    case None =>
      :- Need(forall slot | slot in s.history :: slot.key.owner == key.owner ==>
                slot.generation != active.generation, BindingConflict);
      Success(s.history)
  }

  /** Upgrade (`retained` absent) and restore (`retained` present): package and dataset move together. */
  function CommitVersion(p: Platform, s: Catalog, owner: string, expected: PluginRecord, next: PluginRecord,
                         previous: Binding, active: Binding, retained: Option<Binding>, now: Time, external: bool)
    : Result<(Catalog, PluginRecord), Error>
  {
    var key := Key(owner, expected.instance);
    :- Need(&& now != ZERO_TIME && expected.owner == owner && next.owner == owner
            && expected.instance == next.instance && previous.instance == next.instance
            && active.instance == next.instance
            && expected.publisherID == next.publisherID && expected.pluginID == next.pluginID
            && expected.pkg.version != next.pkg.version
            && previous.state.Active? && active.state.Active? && previous.generation != active.generation
            && previous.revision < MAX_INT64 && active.revision == previous.revision + 1
            && expected.deletedAt.None? && next.deletedAt.None?
            && expected.revisions.management < MAX_INT64
            && expected.revisions.revokeEpoch < MAX_INT64, InvalidArgument);
    :- Need(IdentityValid(p, next) && ValidBinding(previous) && ValidBinding(active), InvalidArgument);
    var shape := DeclaredShape(p, next.pkg);
    :- Need(shape.Some?, InvalidArgument);
    :- CheckRecordShape(p, next, active, shape.value);
    var current :- ReadLive(p, s, key);
    :- Need(current.pkg.fingerprint == expected.pkg.fingerprint && current.revisions == expected.revisions
            && current.enable == expected.enable, AuthorizationRevisionConflict);
    :- Need(IdentityValid(p, current), InvalidArgument);
    var actual :- ReadBinding(s, key);
    :- Need(actual == Some(previous), BindingRevisionConflict);
    var oldShape := DeclaredShape(p, current.pkg);
    :- Need(oldShape.Some?, InvalidArgument);
    :- CheckRecordShape(p, current, previous, oldShape.value);
    var history :- HistoryForVersion(p, s, key, current, next, active, retained);
    var candidate := if external then next
        else next.(enable := current.enable, disabledReason := current.disabledReason);
    var prepared :- PreparePut(p, owner, candidate, Some(current), now);
    var stored := prepared.(versions := BindPackage(prepared.versions, current.pkg.packageHash, previous.generation));
    var slot := Slot(key, previous.generation);
    :- Need(slot !in history, ConstraintViolation);
    :- Need(Readable(p, stored), Incompatible);
    Success((s.(records := s.records[key := stored], bindings := s.bindings[key := active],
                history := history[slot := HistoryRow(current.(versions := []), previous, Nanos(now))]), stored))
  }

  /** A package switch outside a data conversion binds the replaced package to the dataset in use. */
  function BindVersionSwitch(s: Catalog, key: Key, record: PluginRecord,
                             previous: PluginRecord): Result<PluginRecord, Error> {
    if record.pkg.packageHash == previous.pkg.packageHash then
      Success(record)
    else
      var binding :- ReadBinding(s, key);
      :- Need(binding.Some?, BindingNotFound);
      Success(record.(versions := BindPackage(record.versions, previous.pkg.packageHash, binding.value.generation)))
  }

  function PutPlugin(p: Platform, s: Catalog, owner: string, record: PluginRecord,
                     now: Time): Result<(Catalog, PluginRecord), Error> {
    var key := Key(owner, record.instance);
    var existing :- ReadAny(p, s, key);
    :- Need(Live(existing), RecordNotFound);
    var prepared :- PreparePut(p, owner, record, Some(existing), now);
    var stored :- BindVersionSwitch(s, key, prepared, existing);
    :- Need(Readable(p, stored), Incompatible);
    Success((s.(records := s.records[key := stored]), stored))
  }

  function UpdateExternal(p: Platform, s: Catalog, owner: string, record: PluginRecord, expectedRevision: nat,
                          now: Time)
    : Result<(Catalog, PluginRecord), Error>
  {
    var key := Key(owner, record.instance);
    var existing :- ReadLive(p, s, key);
    :- Need(!Blank(record.pkg.fingerprint) && !Blank(record.pkg.packageHash) && !Blank(record.instance)
            && expectedRevision != 0
            && (record.owner == "" || record.owner == owner) && record.pkg.manifestHash != "", InvalidRecord);
    :- Need(existing.revisions.management == expectedRevision,
            ManagementRevisionConflict(expectedRevision, existing.revisions.management));
    var prepared :- PreparePut(p, owner, record, Some(existing), now);
    var stored :- BindVersionSwitch(s, key, prepared, existing);
    :- Need(Readable(p, stored), Incompatible);
    Success((s.(records := s.records[key := stored]), stored))
  }

  // ---------------------------------------------------------------------------
  // Exchanging an installed dataset with a retained one
  // ---------------------------------------------------------------------------

  datatype RecoveryPlan = RecoveryPlan(owner: string, source: Binding, target: Binding, targetRevision: nat,
                                       targetFingerprint: string, retainedAt: Time)

  datatype RecoveryResult = RecoveryResult(active: Binding, retained: Binding, managementRevision: nat)

  predicate IsHexDigit(c: char) {
    '0' <= c <= '9' || 'a' <= c <= 'f' || 'A' <= c <= 'F'
  }

  function RecoveryOutcome(p: Platform, plan: RecoveryPlan): Result<RecoveryResult, Error> {
    var source, target := plan.source, plan.target;
    :- Need(&& source.instance != target.instance && source.generation != target.generation
            && source.state.Retained? && target.state.Active? && source.shapeHash == target.shapeHash
            && 0 < source.revision < MAX_SAFE_INTEGER && 0 < target.revision < MAX_SAFE_INTEGER
            && 0 < plan.targetRevision < MAX_SAFE_INTEGER
            && plan.targetFingerprint != "" && plan.retainedAt != ZERO_TIME && source.retainedAt.Some?
            && target.retainedAt.None? && target.expiresAt.None?
            && (source.expiresAt.Some? ==> source.retainedAt.value < source.expiresAt.value), InvalidArgument);
    :- Need(|source.shapeHash| == 64 && forall c | c in source.shapeHash :: IsHexDigit(c), InvalidArgument);
    :- Need(&& p.identifier(Trim(source.instance)) && p.identifier(Trim(target.instance))
            && p.identifier(Trim(source.generation)) && p.identifier(Trim(target.generation)), InvalidArgument);
    Success(RecoveryResult(
              source.(instance := target.instance, revision := target.revision + 1, state := Active,
                           retainedAt := None, expiresAt := None),
              target.(instance := source.instance, revision := source.revision + 1, state := Retained,
                           retainedAt := Some(plan.retainedAt), expiresAt := None),
              plan.targetRevision + 1))
  }

  function RecoverRetained(p: Platform, s: Catalog, owner: string, plan: RecoveryPlan, shape: Shape, clock: Time)
    : Result<(Catalog, RecoveryResult), Error>
  {
    var next :- RecoveryOutcome(p, plan);
    :- Need(owner == plan.owner, RetainedRecoveryConflict);
    var sourceKey, targetKey := Key(owner, plan.source.instance), Key(owner, plan.target.instance);
    var source :- ReadBinding(s, sourceKey);
    :- Need(source == Some(plan.source)
            && (plan.source.expiresAt.Some? ==> clock < plan.source.expiresAt.value), RetainedRecoveryConflict);
    var bound :- ReadBinding(s, targetKey);
    :- Need(bound == Some(plan.target), RetainedRecoveryConflict);
    var sourceRecord :- ReadAny(p, s, sourceKey);
    :- Need(!Live(sourceRecord), RetainedRecoveryConflict);
    var target :- ReadLive(p, s, targetKey);
    :- Need(target.enable.DisabledByUser? && target.revisions.management == plan.targetRevision
            && target.pkg.fingerprint == plan.targetFingerprint, RetainedRecoveryConflict);
    :- CheckRecordShape(p, target, plan.target, shape);
    :- Need(sourceRecord.publisherID == target.publisherID && sourceRecord.pluginID == target.pluginID, ShapeMismatch);
    :- Need(Dated(clock), Incompatible);
    var source' := sourceRecord.(versions := Rebind(sourceRecord.versions, plan.source.generation,
                                                    next.retained.generation));
    var target' := Advance(target,
                           clock).(versions := Rebind(target.versions, plan.target.generation, next.active.generation));
    Success((s.(records := s.records[sourceKey := source'][targetKey := target'],
                bindings := s.bindings[sourceKey := next.retained.(retainedAt := Column(next.retained.retainedAt))]
                                      [targetKey := next.active]), next))
  }

  // ---------------------------------------------------------------------------
  // Enablement and revocation
  // ---------------------------------------------------------------------------

  function SetEnableState(p: Platform, s: Catalog, owner: string, instance: string, state: EnableState, reason: string,
                          now: Time)
    : Result<(Catalog, PluginRecord), Error>
  {
    var key := Key(owner, instance);
    var record :- ReadLive(p, s, key);
    :- Need(Dated(now), Incompatible);
    var stored := Advance(record, now).(enable := state, disabledReason := reason,
                                        enabledAt := if state.Enabled? then Some(now) else None);
    Success((s.(records := s.records[key := stored]), stored))
  }

  function BumpRevokeEpoch(p: Platform, s: Catalog, owner: string, instance: string,
                           now: Time): Result<(Catalog, PluginRecord), Error> {
    var key := Key(owner, instance);
    var record :- ReadLive(p, s, key);
    :- Need(Dated(now), Incompatible);
    var stored := record.(updatedAt := now,
                          revisions := record.revisions.(revokeEpoch := record.revisions.revokeEpoch + 1));
    Success((s.(records := s.records[key := stored]), stored))
  }

  /** Deletes the record row outright, whatever its state; only the cascade remains. */
  function AbortInstall(s: Catalog, owner: string, instance: string): Result<Catalog, Error> {
    var key := Key(owner, instance);
    :- Need(key in s.records, RecordNotFound);
    Success(Cascade(s, key))
  }
}
