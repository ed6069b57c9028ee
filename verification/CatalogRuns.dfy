/** Whole runs of the control store: what holds in every state any admissible run can reach. */
module CatalogRuns {
  import opened Outcomes
  import opened ControlRows
  import opened DataCatalog
  import opened CatalogInvariant
  import opened FileGrants

  datatype Op =
    | DoInstall(record: PluginRecord, expectedBinding: Option<Binding>, next: Binding, shape: Shape, now: Time)
    | DoUninstall(instance: string, deleteData: bool, revision: nat, retainUntil: Option<Time>, now: Time)
    | DoSwapImport(revision: nat, expectedBinding: Option<Binding>, next: Binding, shape: Shape, now: Time)
    | DoBindRetained(source: Binding, instance: string, revision: nat, shape: Shape, now: Time)
    | DoDeleteRetained(source: Binding)
    | DoCleanup(now: Time, expired: seq<Binding>)
    | DoVersion(expected: PluginRecord, record: PluginRecord, previous: Binding, active: Binding,
                retained: Option<Binding>,
                now: Time, external: bool)
    | DoPut(record: PluginRecord, now: Time)
    | DoUpdateExternal(record: PluginRecord, revision: nat, now: Time)
    | DoRecover(plan: RecoveryPlan, shape: Shape, now: Time)
    | DoSetEnable(instance: string, state: EnableState, reason: string, now: Time)
    | DoBump(instance: string, now: Time)
    | DoGrant(resource: ResourceKey, grant: FileResource, payloadValid: bool, revisions: Revisions, now: Time)
    | DoRevoke(resource: ResourceKey, revision: nat, now: Time)

  /** A request made by a session of one owner. */
  datatype Request = Request(owner: string, op: Op)

  function After<T>(s: Catalog, r: Result<(Catalog, T), Error>): Catalog {
    if r.Success? then r.value.0 else s
  }

  function AfterAlone<E>(s: Catalog, r: Result<Catalog, E>): Catalog {
    if r.Success? then r.value else s
  }

  /** The tables after a request: the committed ones, or the old ones if the transaction failed. */
  function Step(p: Platform, s: Catalog, q: Request): Catalog {
    match q.op
    case DoInstall(record, expected, next, shape, now) =>
      After(s, Install(p, s, q.owner, record, expected, next, shape, now))
    case DoUninstall(instance, deleteData, revision, until, now) =>
      After(s, Uninstall(p, s, q.owner, instance, deleteData, revision, until, now))
    case DoSwapImport(revision, expected, next, shape, now) =>
      AfterAlone(s, SwapImport(p, s, q.owner, revision, expected, next, shape, now))
    case DoBindRetained(source, instance, revision, shape, now) =>
      After(s, BindRetained(p, s, q.owner, source, instance, revision, shape, now))
    case DoDeleteRetained(source) => AfterAlone(s, DeleteRetained(s, q.owner, source))
    case DoCleanup(now, expired) => AfterAlone(s, CleanupExpired(s, q.owner, now, expired))
    case DoVersion(expected, record, previous, active, retained, now, external) =>
      After(s, CommitVersion(p, s, q.owner, expected, record, previous, active, retained, now, external))
    case DoPut(record, now) => After(s, PutPlugin(p, s, q.owner, record, now))
    case DoUpdateExternal(record, revision, now) => After(s, UpdateExternal(p, s, q.owner, record, revision, now))
    case DoRecover(plan, shape, now) => After(s, RecoverRetained(p, s, q.owner, plan, shape, now))
    case DoSetEnable(instance, state, reason, now) =>
      After(s, SetEnableState(p, s, q.owner, instance, state, reason, now))
    case DoBump(instance, now) => After(s, BumpRevokeEpoch(p, s, q.owner, instance, now))
    case DoGrant(resource, grant, payloadValid, revisions, now) =>
      AfterAlone(s, Create(s, resource, grant, payloadValid, revisions, now))
    case DoRevoke(resource, revision, now) => AfterAlone(s, Revoke(s, resource, revision, now))
  }

  // ---------------------------------------------------------------------------
  // What revisions protect
  // ---------------------------------------------------------------------------

  /**
   * How a record may move on over any number of steps: its revoke epoch never drops, and while an installed record
   * keeps its epoch it keeps its package and its version list too.
   */
  ghost predicate RecordSince(a: PluginRecord, b: PluginRecord) {
    && a.revisions.revokeEpoch <= b.revisions.revokeEpoch
    && (Live(a) && a.revisions.revokeEpoch == b.revisions.revokeEpoch ==>
        Live(b) && a.pkg == b.pkg && a.versions == b.versions)
  }

  /**
   * How an installed record may move on in one step: its management revision never drops either, and while it stays the
   * same so do package and version list. A reinstall over a tombstone starts the management revision over.
   */
  ghost predicate RecordManaged(a: PluginRecord, b: PluginRecord) {
    Live(a) ==>
      && a.revisions.management <= b.revisions.management
      && (a.revisions.management == b.revisions.management ==> Live(b) && a.pkg == b.pkg && a.versions == b.versions)
  }

  ghost predicate Since(s: Catalog, s': Catalog) {
    forall key <- s.records :: key in s'.records && RecordSince(s.records[key], s'.records[key])
  }

  /** One step: every record moves on, and every installed record is managed on. */
  ghost predicate Stepped(s: Catalog, s': Catalog) {
    Since(s, s') && forall key <- s.records :: key in s'.records && RecordManaged(s.records[key], s'.records[key])
  }

  lemma SinceTransitive(a: Catalog, b: Catalog, c: Catalog)
    requires Since(a, b) && Since(b, c)
    ensures Since(a, c)
  {
    forall key <- a.records ensures key in c.records && RecordSince(a.records[key], c.records[key]) {
      assert RecordSince(a.records[key], b.records[key]);
      assert RecordSince(b.records[key], c.records[key]);
    }
  }

  lemma PutMovesOn(s: Catalog, s': Catalog, key: Key, r: PluginRecord)
    requires s'.records == s.records[key := r]
    requires key in s.records ==> RecordSince(s.records[key], r) && RecordManaged(s.records[key], r)
    ensures Stepped(s, s')
  {
  }

  lemma InstallMovesOn(p: Platform, s: Catalog, owner: string, record: PluginRecord, expected: Option<Binding>,
                       next: Binding, shape: Shape, now: Time)
    ensures Stepped(s, After(s, Install(p, s, owner, record, expected, next, shape, now)))
  {
    hide CheckRecordShape, ValidBinding, Readable, DropHistory, Blank;
    var r := Install(p, s, owner, record, expected, next, shape, now);
    if r.Success? {
      var key := Key(owner, record.instance);
      assert r.value.0.records == s.records[key := r.value.1];
      PutMovesOn(s, r.value.0, key, r.value.1);
    }
  }

  lemma VersionMovesOn(p: Platform, s: Catalog, owner: string, expected: PluginRecord, next: PluginRecord,
                       previous: Binding, active: Binding, retained: Option<Binding>, now: Time, external: bool)
    ensures Stepped(s, After(s, CommitVersion(p, s, owner, expected, next, previous, active, retained, now, external)))
  {
    hide CheckRecordShape, ValidBinding, Readable, HistoryForVersion, IdentityValid, BindPackage, Blank;
    var r := CommitVersion(p, s, owner, expected, next, previous, active, retained, now, external);
    if r.Success? { PutMovesOn(s, r.value.0, Key(owner, expected.instance), r.value.1); }
  }

  lemma PutPluginMovesOn(p: Platform, s: Catalog, owner: string, record: PluginRecord, now: Time)
    ensures Stepped(s, After(s, PutPlugin(p, s, owner, record, now)))
  {
    hide Readable, BindPackage, Blank;
    var r := PutPlugin(p, s, owner, record, now);
    if r.Success? { PutMovesOn(s, r.value.0, Key(owner, record.instance), r.value.1); }
  }

  lemma UpdateExternalMovesOn(p: Platform, s: Catalog, owner: string, record: PluginRecord, revision: nat, now: Time)
    ensures Stepped(s, After(s, UpdateExternal(p, s, owner, record, revision, now)))
  {
    hide Readable, BindPackage, Blank;
    var r := UpdateExternal(p, s, owner, record, revision, now);
    if r.Success? { PutMovesOn(s, r.value.0, Key(owner, record.instance), r.value.1); }
  }

  lemma SwapImportMovesOn(p: Platform, s: Catalog, owner: string, revision: nat, expected: Option<Binding>,
                          next: Binding, shape: Shape, now: Time)
    ensures Stepped(s, AfterAlone(s, SwapImport(p, s, owner, revision, expected, next, shape, now)))
  {
    hide CheckRecordShape, ValidBinding, Readable, Rebind;
    var r, key := SwapImport(p, s, owner, revision, expected, next, shape, now), Key(owner, next.instance);
    if r.Success? { PutMovesOn(s, r.value, key, r.value.records[key]); }
  }

  lemma BindRetainedMovesOn(p: Platform, s: Catalog, owner: string, source: Binding, instance: string, revision: nat,
                            shape: Shape, now: Time)
    ensures Stepped(s, After(s, BindRetained(p, s, owner, source, instance, revision, shape, now)))
  {
    hide CheckRecordShape, ValidBinding, Readable, Trim;
    var r := BindRetained(p, s, owner, source, instance, revision, shape, now);
    if r.Success? {
      var key := Key(owner, r.value.1.instance);
      PutMovesOn(s, r.value.0, key, r.value.0.records[key]);
    }
  }

  lemma RecoverMovesOn(p: Platform, s: Catalog, owner: string, plan: RecoveryPlan, shape: Shape, clock: Time)
    ensures Stepped(s, After(s, RecoverRetained(p, s, owner, plan, shape, clock)))
  {
    hide CheckRecordShape, ValidBinding, Readable, Rebind, RecoveryOutcome;
    var r := RecoverRetained(p, s, owner, plan, shape, clock);
    if r.Success? {
      var a, b, records := Key(owner, plan.source.instance), Key(owner, plan.target.instance), r.value.0.records;
      assert RecordSince(s.records[a], records[a]) && RecordManaged(s.records[a], records[a]);
      assert RecordSince(s.records[b], records[b]) && RecordManaged(s.records[b], records[b]);
    }
  }

  lemma UninstallMovesOn(p: Platform, s: Catalog, owner: string, instance: string, deleteData: bool, revision: nat,
                         until: Option<Time>, now: Time)
    ensures Stepped(s, After(s, Uninstall(p, s, owner, instance, deleteData, revision, until, now)))
  {
    hide Readable, DropHistory;
    var u, key := Uninstall(p, s, owner, instance, deleteData, revision, until, now), Key(owner, instance);
    if u.Success? { PutMovesOn(s, u.value.0, key, u.value.0.records[key]); }
  }

  lemma EnableMovesOn(p: Platform, s: Catalog, owner: string, instance: string, state: EnableState, reason: string,
                      now: Time)
    ensures Stepped(s, After(s, SetEnableState(p, s, owner, instance, state, reason, now)))
  {
    hide Readable;
    var e := SetEnableState(p, s, owner, instance, state, reason, now);
    if e.Success? { PutMovesOn(s, e.value.0, Key(owner, instance), e.value.1); }
  }

  lemma BumpMovesOn(p: Platform, s: Catalog, owner: string, instance: string, now: Time)
    ensures Stepped(s, After(s, BumpRevokeEpoch(p, s, owner, instance, now)))
  {
    hide Readable;
    var b := BumpRevokeEpoch(p, s, owner, instance, now);
    if b.Success? { PutMovesOn(s, b.value.0, Key(owner, instance), b.value.1); }
  }

  lemma SameRecordsMoveOn(s: Catalog, s': Catalog)
    requires s'.records == s.records
    ensures Stepped(s, s')
  {
  }

  /** Requests that leave the records alone. */
  predicate LeavesRecords(op: Op) {
    op.DoDeleteRetained? || op.DoCleanup? || op.DoGrant? || op.DoRevoke?
  }

  lemma RecordsLeft(p: Platform, s: Catalog, q: Request)
    requires LeavesRecords(q.op)
    ensures Step(p, s, q).records == s.records
  {
    hide CheckRetained, CheckExpired, Evicted, ActiveIn, ValidKey, DropHistory;
  }

  /**
   * Every step moves every record on: no step makes one disappear or lowers its revoke epoch, and none lowers the
   * management revision of an installed one.
   */
  lemma StepMovesOn(p: Platform, s: Catalog, q: Request)
    ensures Stepped(s, Step(p, s, q))
  {
    hide Install, Uninstall, SwapImport, BindRetained, DeleteRetained, CleanupExpired, CommitVersion, PutPlugin,
         UpdateExternal, RecoverRetained, SetEnableState, BumpRevokeEpoch, Create, Revoke, Stepped;
    if LeavesRecords(q.op) {
      RecordsLeft(p, s, q);
      SameRecordsMoveOn(s, Step(p, s, q));
    } else {
      match q.op
      case DoInstall(record, expected, next, shape, now) =>
        InstallMovesOn(p, s, q.owner, record, expected, next, shape, now);
      case DoUninstall(instance, deleteData, revision, until, now) =>
        UninstallMovesOn(p, s, q.owner, instance, deleteData, revision, until, now);
      case DoSwapImport(revision, expected, next, shape, now) =>
        SwapImportMovesOn(p, s, q.owner, revision, expected, next, shape, now);
      case DoBindRetained(source, instance, revision, shape, now) =>
        BindRetainedMovesOn(p, s, q.owner, source, instance, revision, shape, now);
      case DoVersion(expected, record, previous, active, retained, now, external) =>
        VersionMovesOn(p, s, q.owner, expected, record, previous, active, retained, now, external);
      case DoPut(record, now) => PutPluginMovesOn(p, s, q.owner, record, now);
      case DoUpdateExternal(record, revision, now) => UpdateExternalMovesOn(p, s, q.owner, record, revision, now);
      case DoRecover(plan, shape, now) => RecoverMovesOn(p, s, q.owner, plan, shape, now);
      case DoSetEnable(instance, state, reason, now) => EnableMovesOn(p, s, q.owner, instance, state, reason, now);
      case DoBump(instance, now) => BumpMovesOn(p, s, q.owner, instance, now);
    }
  }

  // ---------------------------------------------------------------------------
  // Runs
  // ---------------------------------------------------------------------------

  /**
   * What a run may ask for: requests that fit the state they meet, in the exact sense of the lemmas about them. A
   * version change and an external update may also have been built from a record read in an earlier state; what then
   * stands in for the fit is checked against that record only.
   */
  ghost predicate Admissible(p: Platform, past: seq<Catalog>, q: Request)
    requires past != []
  {
    var s := past[|past| - 1];
    match q.op
    case DoInstall(record, expected, next, _, _) =>
      InstallFits(s, Key(q.owner, record.instance), record, expected, next)
    case DoUninstall(instance, deleteData, _, until, now) =>
      deleteData || Key(q.owner, instance) !in s.bindings || until.None? || Nanos(now) < Nanos(until.value)
    case DoSwapImport(_, _, next, _, _) => UnusedElsewhere(s, Key(q.owner, next.instance), next.generation)
    case DoVersion(expected, record, previous, active, retained, now, _) =>
      || ChangeFits(s, Key(q.owner, expected.instance), record, previous, active, retained, now)
      || (&& Nanos(now) > 0 && (retained.None? ==> Unbound(s, q.owner, active.generation))
          && DerivedVersions(record.versions, expected.versions, expected.pkg.packageHash)
          && WasRead(past, Key(q.owner, expected.instance), expected))
    case DoPut(record, _) => PutFits(p, s, Key(q.owner, record.instance), record)
    case DoUpdateExternal(record, _, _) =>
      || PutFits(p, s, Key(q.owner, record.instance), record)
      || BuiltEarlier(p, past, Key(q.owner, record.instance), record)
    case _ => true
  }

  ghost predicate WasRead(past: seq<Catalog>, key: Key, r: PluginRecord) {
    exists j :: 0 <= j < |past| && key in past[j].records && past[j].records[key] == r
  }

  /** The record was built from the one read in state j, whose revoke epoch is still the current one. */
  ghost predicate BuiltFrom(p: Platform, s: Catalog, earlier: Catalog, key: Key, record: PluginRecord) {
    && key in s.records && key in earlier.records && Live(earlier.records[key])
    && earlier.records[key].revisions.revokeEpoch == s.records[key].revisions.revokeEpoch
    && Live(record) && SwitchVersions(record, earlier.records[key])
    && DeclaredHash(p, record.pkg) == DeclaredHash(p, earlier.records[key].pkg)
  }

  ghost predicate BuiltEarlier(p: Platform, past: seq<Catalog>, key: Key, record: PluginRecord)
    requires past != []
  {
    exists j :: 0 <= j < |past| && BuiltFrom(p, past[|past| - 1], past[j], key, record)
  }

  ghost predicate Run(p: Platform, trace: seq<Catalog>, requests: seq<Request>) {
    && |trace| == |requests| + 1
    && Inv(p, trace[0])
    && forall i :: 0 <= i < |requests| ==>
         trace[i + 1] == Step(p, trace[i], requests[i]) && Admissible(p, trace[..i + 1], requests[i])
  }

  lemma {:induction false} RunMovesOn(p: Platform, trace: seq<Catalog>, requests: seq<Request>, i: nat, j: nat)
    requires Run(p, trace, requests) && i <= j < |trace|
    ensures Since(trace[i], trace[j])
    decreases j - i
  {
    hide Step, Inv, Admissible, RecordSince;
    if i < j {
      RunMovesOn(p, trace, requests, i, j - 1);
      StepMovesOn(p, trace[j - 1], requests[j - 1]);
      assert trace[j - 1 + 1] == Step(p, trace[j - 1], requests[j - 1]);
      assert Stepped(trace[j - 1], trace[j]);
      SinceTransitive(trace[i], trace[j - 1], trace[j]);
    } else {
      SinceReflexive(trace[i]);
    }
  }

  /**
   * Between two states through which a plugin stays installed its management revision does not drop, and equal
   * revisions mean an equal package and version list.
   */
  lemma {:induction false} ManagementMovesOn(p: Platform, trace: seq<Catalog>, requests: seq<Request>, i: nat, j: nat,
                                             key: Key)
    requires Run(p, trace, requests) && i <= j < |trace|
    requires forall k :: i <= k <= j ==> key in trace[k].records && Live(trace[k].records[key])
    ensures RecordManaged(trace[i].records[key], trace[j].records[key])
    decreases j - i
  {
    hide Step, Inv, Admissible, RecordSince;
    if i < j {
      ManagementMovesOn(p, trace, requests, i, j - 1, key);
      StepMovesOn(p, trace[j - 1], requests[j - 1]);
      assert trace[j - 1 + 1] == Step(p, trace[j - 1], requests[j - 1]);
      assert RecordManaged(trace[j - 1].records[key], trace[j].records[key]);
    }
  }

  lemma SinceReflexive(s: Catalog)
    ensures Since(s, s)
  {
  }

  lemma ResourcesKeep(p: Platform, s: Catalog, resources: map<ResourceKey, FileResource>)
    requires Inv(p, s)
    requires forall r <- resources :: r.Plugin() in s.records
    ensures Inv(p, s.(resources := resources))
  {
    hide RowFits, HistoryReadable, GenerationsUnique;
    var s' := s.(resources := resources);
    forall k <- s'.records ensures RowFits(p, k, s'.records[k], BindingAt(s', k), s'.history) {
      assert BindingAt(s', k) == BindingAt(s, k);
    }
  }

  /** A version change built from an earlier read passes its revision check only if nothing it relies on has changed. */
  lemma ReadIsCurrent(p: Platform, past: seq<Catalog>, owner: string, expected: PluginRecord, next: PluginRecord,
                      previous: Binding, active: Binding, retained: Option<Binding>, now: Time, external: bool)
    requires past != [] && WasRead(past, Key(owner, expected.instance), expected)
    requires forall i :: 0 <= i < |past| ==> Since(past[i], past[|past| - 1])
    requires CommitVersion(p, past[|past| - 1], owner, expected, next, previous, active, retained, now,
                           external).Success?
    ensures var r := past[|past| - 1].records[Key(owner, expected.instance)];
            r.pkg == expected.pkg && r.versions == expected.versions
  {
    hide CheckRecordShape, ValidBinding, Readable, HistoryForVersion, IdentityValid, PreparePut;
    var key := Key(owner, expected.instance);
    var j :| 0 <= j < |past| && key in past[j].records && past[j].records[key] == expected;
    assert Since(past[j], past[|past| - 1]);
  }

  /** An external update built from an earlier read fits if the revoke epoch has not moved since. */
  lemma EarlierReadFits(p: Platform, past: seq<Catalog>, key: Key, record: PluginRecord)
    requires past != [] && Inv(p, past[|past| - 1]) && BuiltEarlier(p, past, key, record)
    requires forall i :: 0 <= i < |past| ==> Since(past[i], past[|past| - 1])
    ensures PutFits(p, past[|past| - 1], key, record)
  {
    hide GenerationsUnique, HistoryReadable, DeclaredHash, SwitchVersions, PutFits;
    var s := past[|past| - 1];
    var j :| 0 <= j < |past| && BuiltFrom(p, s, past[j], key, record);
    assert Since(past[j], s) && RecordSince(past[j].records[key], s.records[key]);
    RowAt(p, s, key);
    SameListSwitch(record, past[j].records[key], s.records[key]);
    DerivedRecordFits(p, s, key, record);
  }

  lemma SameListSwitch(record: PluginRecord, a: PluginRecord, b: PluginRecord)
    requires SwitchVersions(record, a) && a.pkg == b.pkg && a.versions == b.versions
    ensures SwitchVersions(record, b)
  {
  }

  /** A version change that was built from an earlier read and commits fits the state it meets. */
  lemma EarlierChangeFits(p: Platform, past: seq<Catalog>, owner: string, expected: PluginRecord, next: PluginRecord,
                          previous: Binding, active: Binding, retained: Option<Binding>, now: Time, external: bool)
    requires past != [] && Inv(p, past[|past| - 1]) && Nanos(now) > 0
    requires WasRead(past, Key(owner, expected.instance), expected)
    requires forall i :: 0 <= i < |past| ==> Since(past[i], past[|past| - 1])
    requires retained.None? ==> Unbound(past[|past| - 1], owner, active.generation)
    requires DerivedVersions(next.versions, expected.versions, expected.pkg.packageHash)
    requires CommitVersion(p, past[|past| - 1], owner, expected, next, previous, active, retained, now,
                           external).Success?
    ensures ChangeFits(past[|past| - 1], Key(owner, expected.instance), next, previous, active, retained, now)
  {
    hide CommitVersion, WasRead, Since, GenerationsUnique, HistoryReadable, Readable, ValidBinding, DerivedVersions,
         ChangeNamesHeld;
    var s, key := past[|past| - 1], Key(owner, expected.instance);
    ReadIsCurrent(p, past, owner, expected, next, previous, active, retained, now, external);
    CommitVersionEffect(p, s, owner, expected, next, previous, active, retained, now, external);
    RowAt(p, s, key);
    DerivedNamesHeld(s, key, next.versions, previous, active);
  }

  lemma StepKeeps(p: Platform, past: seq<Catalog>, q: Request)
    requires past != [] && Inv(p, past[|past| - 1]) && Admissible(p, past, q)
    requires forall i :: 0 <= i < |past| ==> Since(past[i], past[|past| - 1])
    ensures Inv(p, Step(p, past[|past| - 1], q))
  {
    hide Install, Uninstall, SwapImport, BindRetained, DeleteRetained, CleanupExpired, CommitVersion, PutPlugin,
         UpdateExternal, RecoverRetained, SetEnableState, BumpRevokeEpoch, WasRead, Since, Inv, DerivedVersions,
         InstallFits, ChangeFits, PutFits, UnusedElsewhere, BuiltEarlier, Unbound, Create, Revoke;
    var s := past[|past| - 1];
    match q.op
    case DoInstall(record, expected, next, shape, now) =>
      InstallKeepsIff(p, s, q.owner, record, expected, next, shape, now);
    case DoUninstall(instance, deleteData, revision, until, now) =>
      UninstallKeepsIff(p, s, q.owner, instance, deleteData, revision, until, now);
    case DoSwapImport(revision, expected, next, shape, now) =>
      SwapImportKeepsIff(p, s, q.owner, revision, expected, next, shape, now);
    case DoBindRetained(source, instance, revision, shape, now) =>
      BindRetainedKeeps(p, s, q.owner, source, instance, revision, shape, now);
    case DoDeleteRetained(source) => DeleteRetainedKeeps(p, s, q.owner, source);
    case DoCleanup(now, expired) => CleanupKeeps(p, s, q.owner, now, expired);
    case DoVersion(expected, record, previous, active, retained, now, external) =>
      CommitVersionKeepsIff(p, s, q.owner, expected, record, previous, active, retained, now, external);
      if !ChangeFits(s, Key(q.owner, expected.instance), record, previous, active, retained, now)
         && CommitVersion(p, s, q.owner, expected, record, previous, active, retained, now, external).Success? {
        EarlierChangeFits(p, past, q.owner, expected, record, previous, active, retained, now, external);
      }
    case DoPut(record, now) => PutPluginKeepsIff(p, s, q.owner, record, now);
    case DoUpdateExternal(record, revision, now) =>
      UpdateExternalKeepsIff(p, s, q.owner, record, revision, now);
      var key := Key(q.owner, record.instance);
      if !PutFits(p, s, key, record) { EarlierReadFits(p, past, key, record); }
    case DoRecover(plan, shape, now) => RecoverRetainedKeeps(p, s, q.owner, plan, shape, now);
    case DoSetEnable(instance, state, reason, now) => SetEnableStateKeeps(p, s, q.owner, instance, state, reason, now);
    case DoBump(instance, now) => BumpRevokeEpochKeeps(p, s, q.owner, instance, now);
    case DoGrant(resource, grant, payloadValid, revisions, now) =>
      GrantKeeps(p, s, resource, grant, payloadValid, revisions, now);
    case DoRevoke(resource, revision, now) => RevokeKeeps(p, s, resource, revision, now);
  }

  lemma GrantKeeps(p: Platform, s: Catalog, k: ResourceKey, r: FileResource, payloadValid: bool, revisions: Revisions,
                   now: Time)
    requires Inv(p, s)
    ensures Inv(p, AfterAlone(s, Create(s, k, r, payloadValid, revisions, now)))
  {
    hide Evicted, ActiveIn, ValidKey, RowsFit, HistoryReadable, GenerationsUnique;
    var c := Create(s, k, r, payloadValid, revisions, now);
    if c.Success? { ResourcesKeep(p, s, c.value.resources); }
  }

  lemma RevokeKeeps(p: Platform, s: Catalog, k: ResourceKey, revision: nat, now: Time)
    requires Inv(p, s)
    ensures Inv(p, AfterAlone(s, Revoke(s, k, revision, now)))
  {
    hide ValidKey, RowsFit, HistoryReadable, GenerationsUnique;
    var c := Revoke(s, k, revision, now);
    if c.Success? { ResourcesKeep(p, s, c.value.resources); }
  }

  /** The catalog invariant holds in every state of every run. */
  lemma {:induction false} RunKeepsInvariant(p: Platform, trace: seq<Catalog>, requests: seq<Request>, i: nat)
    requires Run(p, trace, requests) && i < |trace|
    ensures Inv(p, trace[i])
  {
    hide Step, Inv, Admissible, Since;
    if i > 0 {
      RunKeepsInvariant(p, trace, requests, i - 1);
      var past := trace[..i];
      forall j | 0 <= j < |past| ensures Since(past[j], past[|past| - 1]) {
        RunMovesOn(p, trace, requests, j, i - 1);
      }
      assert trace[i - 1 + 1] == Step(p, trace[i - 1], requests[i - 1])
          && Admissible(p, trace[..i - 1 + 1], requests[i - 1]);
      StepKeeps(p, past, requests[i - 1]);
    }
  }
}
