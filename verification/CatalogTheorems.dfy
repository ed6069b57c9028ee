/** What holds of every run of the control store, in terms of its tables. */
module CatalogTheorems {
  import opened Outcomes
  import opened ControlRows
  import opened DataCatalog
  import opened CatalogInvariant
  import opened FileGrants
  import opened CatalogRuns

  /** A new control database is where runs may start. */
  lemma EmptyCatalogIsSane(p: Platform)
    ensures var s := Catalog(map[], map[], map[], map[]); Inv(p, s) && Bounded(s) && GrantsBehind(s)
  {
  }

  /** No dangling data: every version an installed instance can return to names data that instance still holds. */
  lemma NoDanglingData(p: Platform, trace: seq<Catalog>, requests: seq<Request>, i: nat, key: Key, v: PackageVersion)
    requires Run(p, trace, requests) && i < |trace|
    requires key in trace[i].records && Live(trace[i].records[key]) && v in trace[i].records[key].versions
             && v.generation != ""
    ensures var s := trace[i];
            || (key in s.bindings && s.bindings[key].state.Active? && s.bindings[key].generation == v.generation)
            || (Slot(key, v.generation) in s.history
                && HistoryDecodes(p, Slot(key, v.generation), s.history[Slot(key, v.generation)]))
  {
    hide Run, HistoryDecodes, ValidBinding, GenerationsUnique, DeclaredHash;
    RunKeepsInvariant(p, trace, requests, i);
    RowAt(p, trace[i], key);
  }

  /** Bindings agree with the records that own them, and no two rows of an owner hold the same generation. */
  lemma CatalogIsConsistent(p: Platform, trace: seq<Catalog>, requests: seq<Request>, i: nat, key: Key)
    requires Run(p, trace, requests) && i < |trace| && key in trace[i].bindings
    ensures var s := trace[i];
            && key in s.records
            && (Live(s.records[key]) ==>
                s.bindings[key].state.Active? && DeclaredHash(p, s.records[key].pkg) == Some(s.bindings[key].shapeHash))
            && (!Live(s.records[key]) ==> s.bindings[key].state.Retained?)
            && ReadBinding(s, key) == Success(Some(s.bindings[key]))
            && (forall k <- s.bindings ::
                  k.owner == key.owner && s.bindings[k].generation == s.bindings[key].generation ==> k == key)
            && (forall slot <- s.history :: slot.key.owner == key.owner ==>
                  slot.generation != s.bindings[key].generation)
  {
    hide Run, HistoryReadable, DeclaredHash, Readable, VersionsHeld;
    RunKeepsInvariant(p, trace, requests, i);
    RowAt(p, trace[i], key);
  }

  /**
   * Under the invariant the insert into the history table never meets its primary key, and the row it writes can be
   * read back exactly if the time of the change is stored as a positive number.
   */
  lemma VersionChangeNeverCollides(p: Platform, s: Catalog, owner: string, expected: PluginRecord, next: PluginRecord,
                                   previous: Binding, active: Binding, retained: Option<Binding>, now: Time,
                                   external: bool)
    requires Inv(p, s)
    ensures var r := CommitVersion(p, s, owner, expected, next, previous, active, retained, now, external);
            var slot := Slot(Key(owner, expected.instance), previous.generation);
            && r != Failure(ConstraintViolation)
            && (r.Success? ==>
                slot in r.value.0.history && (HistoryDecodes(p, slot, r.value.0.history[slot]) <==> Nanos(now) > 0))
  {
    if CommitVersion(p, s, owner, expected, next, previous, active, retained, now, external).Success? {
      hide CommitVersion, HistoryDecodes, Readable, BindingMatches, GenerationsUnique, HistoryReadable;
      CommitVersionEffect(p, s, owner, expected, next, previous, active, retained, now, external);
      RowAt(p, s, Key(owner, expected.instance));
    } else {
      NeverCollides(p, s, owner, expected, next, previous, active, retained, now, external);
    }
  }

  lemma NeverCollides(p: Platform, s: Catalog, owner: string, expected: PluginRecord, next: PluginRecord,
                      previous: Binding, active: Binding, retained: Option<Binding>, now: Time, external: bool)
    requires Inv(p, s)
    ensures CommitVersion(p, s, owner, expected, next, previous, active, retained, now,
                          external) != Failure(ConstraintViolation)
  {
    hide ValidBinding, IdentityValid, DeclaredHash, DeclaredShape, RowsFit, HistoryReadable, BindPackage, Readable,
         PreparePut, HistoryForVersion, CheckRecordShape;
    var key := Key(owner, expected.instance);
    forall r, b, shape ensures CheckRecordShape(p, r, b, shape) != Fail(ConstraintViolation) {
      ShapeError(p, r, b, shape);
    }
    if key in s.records {
      var current := s.records[key];
      HistoryError(p, s, key, current, next, active, retained);
      PreparedError(p, owner, if external then next
                    else next.(enable := current.enable, disabledReason := current.disabledReason), Some(current), now);
    }
  }

  lemma ShapeError(p: Platform, r: PluginRecord, b: Binding, shape: Shape)
    ensures CheckRecordShape(p, r, b, shape) != Fail(ConstraintViolation)
  {
  }

  lemma HistoryError(p: Platform, s: Catalog, key: Key, current: PluginRecord, next: PluginRecord, active: Binding,
                     retained: Option<Binding>)
    ensures match HistoryForVersion(p, s, key, current, next, active, retained)
            case Failure(e) => e != ConstraintViolation
            case Success(history) => history.Keys <= s.history.Keys
  {
    hide HistoryDecodes, UsesGeneration;
  }

  lemma PreparedError(p: Platform, owner: string, r: PluginRecord, existing: Option<PluginRecord>, now: Time)
    ensures PreparePut(p, owner, r, existing, now).Failure? ==>
              PreparePut(p, owner, r, existing, now).error == InvalidRecord
  {
    hide Blank;
  }

  // ---------------------------------------------------------------------------
  // File grants across uninstall and reinstall
  // ---------------------------------------------------------------------------

  /** Rows that were there before with the same epoch, or new ones created under the plugin's current epoch. */
  ghost predicate GrantsFrom(s: Catalog, resources: map<ResourceKey, FileResource>) {
    forall r <- resources ::
      || (r in s.resources && resources[r].revokeEpoch == s.resources[r].revokeEpoch)
      || (r.Plugin() in s.records && resources[r].revokeEpoch == s.records[r.Plugin()].revisions.revokeEpoch)
  }

  lemma InstallGrants(p: Platform, s: Catalog, owner: string, record: PluginRecord, expected: Option<Binding>,
                      next: Binding, shape: Shape, now: Time)
    ensures GrantsFrom(s, After(s, Install(p, s, owner, record, expected, next, shape, now)).resources)
  {
    hide CheckRecordShape, ValidBinding, Readable, DropHistory, PreparePut;
  }

  lemma UninstallGrants(p: Platform, s: Catalog, owner: string, instance: string, deleteData: bool, revision: nat,
                        until: Option<Time>, now: Time)
    ensures After(s, Uninstall(p, s, owner, instance, deleteData, revision, until, now)).resources == s.resources
  {
    hide Readable, DropHistory;
  }

  lemma DataGrants(p: Platform, s: Catalog, owner: string, revision: nat, expected: Option<Binding>, next: Binding,
                   source: Binding, instance: string, shape: Shape, now: Time)
    ensures AfterAlone(s, SwapImport(p, s, owner, revision, expected, next, shape, now)).resources == s.resources
    ensures After(s, BindRetained(p, s, owner, source, instance, revision, shape, now)).resources == s.resources
  {
    hide CheckRecordShape, ValidBinding, Readable, Rebind, Trim;
  }

  lemma VersionGrants(p: Platform, s: Catalog, owner: string, expected: PluginRecord, next: PluginRecord,
                      previous: Binding, active: Binding, retained: Option<Binding>, external: bool, now: Time)
    ensures After(s, CommitVersion(p, s, owner, expected, next, previous, active, retained, now, external)).resources
            == s.resources
  {
    hide CheckRecordShape, ValidBinding, Readable, IdentityValid, HistoryForVersion, PreparePut, BindPackage;
  }

  lemma SwitchGrants(p: Platform, s: Catalog, owner: string, record: PluginRecord, revision: nat, now: Time)
    ensures After(s, PutPlugin(p, s, owner, record, now)).resources == s.resources
    ensures After(s, UpdateExternal(p, s, owner, record, revision, now)).resources == s.resources
  {
    hide Readable, PreparePut, BindVersionSwitch;
  }

  lemma RecoverGrants(p: Platform, s: Catalog, owner: string, plan: RecoveryPlan, shape: Shape, now: Time)
    ensures After(s, RecoverRetained(p, s, owner, plan, shape, now)).resources == s.resources
  {
    hide CheckRecordShape, ValidBinding, Readable, RecoveryOutcome, Rebind;
  }

  lemma StepGrants(p: Platform, s: Catalog, q: Request)
    ensures GrantsFrom(s, Step(p, s, q).resources)
  {
    hide Install, Uninstall, SwapImport, BindRetained, CheckRetained, CheckExpired, CommitVersion, PutPlugin,
         UpdateExternal, RecoverRetained, Evicted, ActiveIn, ValidKey, DropHistory, Readable;
    match q.op
    case DoInstall(record, expected, next, shape, now) =>
      InstallGrants(p, s, q.owner, record, expected, next, shape, now);
    case DoUninstall(instance, deleteData, revision, until, now) =>
      UninstallGrants(p, s, q.owner, instance, deleteData, revision, until, now);
    case DoSwapImport(revision, expected, next, shape, now) =>
      DataGrants(p, s, q.owner, revision, expected, next, next, "", shape, now);
    case DoBindRetained(source, instance, revision, shape, now) =>
      DataGrants(p, s, q.owner, revision, None, source, source, instance, shape, now);
    case DoDeleteRetained(source) =>
    case DoCleanup(now, expired) =>
    case DoVersion(expected, record, previous, active, retained, now, external) =>
      VersionGrants(p, s, q.owner, expected, record, previous, active, retained, external, now);
    case DoPut(record, now) => SwitchGrants(p, s, q.owner, record, 0, now);
    case DoUpdateExternal(record, revision, now) => SwitchGrants(p, s, q.owner, record, revision, now);
    case DoRecover(plan, shape, now) => RecoverGrants(p, s, q.owner, plan, shape, now);
    case DoSetEnable(instance, state, reason, now) =>
    case DoBump(instance, now) =>
    case DoGrant(resource, grant, payloadValid, revisions, now) =>
    case DoRevoke(resource, revision, now) =>
  }

  /** Apart from creating a grant, no step adds a grant row. */
  lemma FewerGrants(p: Platform, s: Catalog, q: Request)
    requires !q.op.DoGrant?
    ensures Step(p, s, q).resources.Keys <= s.resources.Keys
  {
    hide Uninstall, SwapImport, BindRetained, CheckRetained, CheckExpired, CommitVersion, PutPlugin, UpdateExternal,
         RecoverRetained, ValidKey, DropHistory, Readable, CheckRecordShape, ValidBinding, PreparePut;
    match q.op
    case DoUninstall(instance, deleteData, revision, until, now) =>
      UninstallGrants(p, s, q.owner, instance, deleteData, revision, until, now);
    case DoSwapImport(revision, expected, next, shape, now) =>
      DataGrants(p, s, q.owner, revision, expected, next, next, "", shape, now);
    case DoBindRetained(source, instance, revision, shape, now) =>
      DataGrants(p, s, q.owner, revision, None, source, source, instance, shape, now);
    case DoVersion(expected, record, previous, active, retained, now, external) =>
      VersionGrants(p, s, q.owner, expected, record, previous, active, retained, external, now);
    case DoPut(record, now) => SwitchGrants(p, s, q.owner, record, 0, now);
    case DoUpdateExternal(record, revision, now) => SwitchGrants(p, s, q.owner, record, revision, now);
    case DoRecover(plan, shape, now) => RecoverGrants(p, s, q.owner, plan, shape, now);
    case _ =>
  }

  /** Grant rows never carry an epoch later than their plugin's. */
  ghost predicate GrantsBehind(s: Catalog) {
    forall r <- s.resources :: r.Plugin() in s.records
        && s.resources[r].revokeEpoch <= s.records[r.Plugin()].revisions.revokeEpoch
  }

  lemma {:induction false} RunGrantsBehind(p: Platform, trace: seq<Catalog>, requests: seq<Request>, i: nat)
    requires Run(p, trace, requests) && GrantsBehind(trace[0]) && i < |trace|
    ensures GrantsBehind(trace[i])
  {
    hide Step, Inv, Admissible;
    if i > 0 {
      RunGrantsBehind(p, trace, requests, i - 1);
      StepGrants(p, trace[i - 1], requests[i - 1]);
      StepMovesOn(p, trace[i - 1], requests[i - 1]);
      assert trace[i - 1 + 1] == Step(p, trace[i - 1], requests[i - 1]);
      forall r <- trace[i].resources
        ensures r.Plugin() in trace[i].records
                && trace[i].resources[r].revokeEpoch <= trace[i].records[r.Plugin()].revisions.revokeEpoch
      {
        assert r.Plugin() in trace[i - 1].records ==>
          RecordSince(trace[i - 1].records[r.Plugin()], trace[i].records[r.Plugin()]);
      }
    }
  }

  /** An uninstall moves the revoke epoch past every grant of the plugin. */
  lemma UninstallRaisesEpoch(p: Platform, s: Catalog, owner: string, instance: string, deleteData: bool, revision: nat,
                             until: Option<Time>, now: Time)
    requires Uninstall(p, s, owner, instance, deleteData, revision, until, now).Success?
    ensures var key := Key(owner, instance);
            var s' := Uninstall(p, s, owner, instance, deleteData, revision, until, now).value.0;
            key in s.records && key in s'.records
            && s'.records[key].revisions.revokeEpoch == s.records[key].revisions.revokeEpoch + 1
  {
    hide Readable, DropHistory;
  }

  /**
   * A file grant made before an uninstall is never usable again, even if the same package returns under
   * the same instance id: whatever row is usable under its key later was created under a later epoch.
   */
  lemma UninstallEndsGrants(p: Platform, trace: seq<Catalog>, requests: seq<Request>, i: nat, j: nat, r: ResourceKey,
                            now: Time)
    requires Run(p, trace, requests) && GrantsBehind(trace[0]) && i < j < |trace|
    requires var q := requests[i];
             && q.op.DoUninstall? && r.Plugin() == Key(q.owner, q.op.instance)
             && Uninstall(p, trace[i], q.owner, q.op.instance, q.op.deleteData, q.op.revision, q.op.retainUntil,
                          q.op.now).Success?
    requires r in trace[i].resources
    ensures Usable(trace[j], r, now) ==> trace[j].resources[r].revokeEpoch > trace[i].resources[r].revokeEpoch
  {
    hide Inv, Admissible, Uninstall, ValidKey;
    var q := requests[i];
    RunGrantsBehind(p, trace, requests, i);
    UninstallRaisesEpoch(p, trace[i], q.owner, q.op.instance, q.op.deleteData, q.op.revision, q.op.retainUntil,
                         q.op.now);
    assert trace[i + 1] == Step(p, trace[i], q);
    RunMovesOn(p, trace, requests, i + 1, j);
    assert RecordSince(trace[i + 1].records[r.Plugin()], trace[j].records[r.Plugin()]);
  }

  lemma {:induction false} RunIsBounded(p: Platform, trace: seq<Catalog>, requests: seq<Request>, i: nat)
    requires Run(p, trace, requests) && Bounded(trace[0]) && i < |trace|
    ensures Bounded(trace[i])
  {
    hide Step, Inv, Admissible, Bounded;
    if i > 0 {
      RunIsBounded(p, trace, requests, i - 1);
      StepIsBounded(p, trace[i - 1], requests[i - 1]);
      assert trace[i - 1 + 1] == Step(p, trace[i - 1], requests[i - 1]);
    }
  }

  /** No step leaves a user more than the retained number of file rows for a plugin. */
  lemma StepIsBounded(p: Platform, s: Catalog, q: Request)
    requires Bounded(s)
    ensures Bounded(Step(p, s, q))
  {
    hide Bounded;
    match q.op
    case DoGrant(resource, grant, payloadValid, revisions, now) => {
      hide Create;
      CreateKeepsBounded(s, resource, grant, payloadValid, revisions, now);
    }
    case _ => {
      FewerGrants(p, s, q);
      FewerRowsKeepBounded(s, Step(p, s, q));
    }
  }

  // ---------------------------------------------------------------------------
  // Aborted installs
  // ---------------------------------------------------------------------------

  lemma AbortInstallKeeps(p: Platform, s: Catalog, owner: string, instance: string)
    requires Inv(p, s)
    ensures var r := AbortInstall(s, owner, instance); r.Success? ==> Inv(p, r.value)
  {
    hide Inv, Cascade;
    CascadeKeeps(p, s, Key(owner, instance));
  }

  /** Aborting an install forgets the revoke epoch: reinstalling does not lower it exactly when it was at most one. */
  lemma AbortForgetsEpochIff(p: Platform, s: Catalog, owner: string, record: PluginRecord, next: Binding, shape: Shape,
                             now: Time)
    requires AbortInstall(s, owner, record.instance).Success?
    ensures var r := Install(p, AbortInstall(s, owner, record.instance).value, owner, record, None, next, shape, now);
            r.Success? ==>
              (s.records[Key(owner, record.instance)].revisions.revokeEpoch <= r.value.1.revisions.revokeEpoch
               <==> s.records[Key(owner, record.instance)].revisions.revokeEpoch <= 1)
  {
    hide CheckRecordShape, ValidBinding, Readable, DropHistory, Blank;
  }

  // ---------------------------------------------------------------------------
  // Uninstall and return
  // ---------------------------------------------------------------------------

  /** What an installation of a package looks like before it is stored. */
  function Newcomer(r: PluginRecord): PluginRecord {
    r.(enable := Enabled, disabledReason := "", revisions := Revisions(r.revisions.policy, 0, 0), versions := [],
       enabledAt := None, deletedAt := None)
  }

  /**
   * An uninstall that retains the data commits exactly on the current revision and at a time that can be spelled, and
   * leaves a tombstone over the same generation.
   */
  lemma UninstallRetains(p: Platform, s: Catalog, owner: string, instance: string, revision: nat, until: Option<Time>,
                         now: Time)
    requires Inv(p, s) && Key(owner, instance) in s.bindings
    ensures var key := Key(owner, instance); var r, b := s.records[key], s.bindings[key];
            var gone := Uninstall(p, s, owner, instance, false, revision, until, now);
            && (gone.Success? <==> Live(r) && revision != 0 && r.revisions.management == revision && Dated(now))
            && (gone.Success? ==>
                  var t := gone.value.0;
                  && t.records == s.records[key := Advance(r, now).(deletedAt := Some(now), enabledAt := None)]
                  && t.history == s.history
                  && t.bindings == s.bindings[key := b.(state := Retained, revision := b.revision + 1,
                                                        retainedAt := Some(Nanos(now)), expiresAt := Column(until))])
  {
    hide GenerationsUnique, HistoryReadable, VersionsHeld, ValidBinding, DeclaredHash, Nanos, Dated;
    RowAt(p, s, Key(owner, instance));
  }

  /** An install over a tombstone takes exactly its retained dataset back into use. */
  lemma ReinstallReactivates(p: Platform, t: Catalog, owner: string, r: PluginRecord, kept: Binding, shape: Shape,
                             now: Time)
    requires var key := Key(owner, r.instance);
             && key in t.records && !Live(t.records[key]) && Readable(p, t.records[key]) && key in t.bindings
             && t.bindings[key] == kept
    requires kept.instance == r.instance && ValidBinding(kept) && kept.state.Retained?
             && (r.owner == "" || r.owner == owner)
    requires p.acceptable(owner, r.pkg) && p.decode(r.pkg.canonical).Some? && CheckRecordShape(p, r, kept, shape).Pass?
    ensures var key := Key(owner, r.instance);
            var back := Install(p, t, owner, Newcomer(r), Some(kept), Activated(kept, kept.instance), shape, now);
            && (back.Success? <==> Dated(now))
            && (back.Success? ==>
                  && back.value.0.bindings == t.bindings[key := Activated(kept, kept.instance)]
                  && back.value.0.history == t.history && back.value.1.pkg == r.pkg
                  && back.value.1.revisions.revokeEpoch == t.records[key].revisions.revokeEpoch)
  {
    hide Blank, Cascade, Dated;
  }

  /**
   * An uninstall that retains the data is undone by installing the same package again, exactly if the stored deadline
   * lies after the stored time of the uninstall: the same generation is in use, its history is kept, and the revoke
   * epoch has moved on.
   */
  lemma UninstallThenReinstall(p: Platform, s: Catalog, t: Catalog, owner: string, r: PluginRecord, shape: Shape,
                               revision: nat, until: Option<Time>, now: Time, later: Time)
    requires var key := Key(owner, r.instance); Inv(p, s) && key in s.bindings && s.records[key] == r
    requires var gone := Uninstall(p, s, owner, r.instance, false, revision, until, now);
             gone.Success? && gone.value.0 == t
    requires p.acceptable(owner, r.pkg)
    requires CheckRecordShape(p, r, s.bindings[Key(owner, r.instance)], shape).Pass?
    ensures var key := Key(owner, r.instance);
            && key in t.bindings
            && var back := Install(p, t, owner, Newcomer(r), Some(t.bindings[key]),
                                   Activated(t.bindings[key], r.instance), shape, later);
            && (back.Success? <==> (until.Some? ==> Nanos(now) < Nanos(until.value)) && Dated(later))
            && (back.Success? ==>
                  && back.value.0.bindings
                     == s.bindings[key := s.bindings[key].(revision := s.bindings[key].revision + 2)]
                  && back.value.0.history == s.history && back.value.1.pkg == r.pkg
                  && back.value.1.revisions.revokeEpoch == r.revisions.revokeEpoch + 1)
  {
    hide Install, Uninstall, CheckRecordShape, GenerationsUnique, HistoryReadable, VersionsHeld, DeclaredHash, Blank,
         Nanos, Dated;
    var key := Key(owner, r.instance);
    UninstallRetains(p, s, owner, r.instance, revision, until, now);
    RowAt(p, s, key);
    SameShape(p, r, s.bindings[key], t.bindings[key], shape);
    if until.Some? ==> Nanos(now) < Nanos(until.value) {
      TombstoneIsReadable(p, r, now);
      ReinstallReactivates(p, t, owner, r, t.bindings[key], shape, later);
    } else {
      InvalidIsRefused(p, t, owner, Newcomer(r), t.bindings[key], Activated(t.bindings[key], r.instance), shape, later);
    }
  }

  lemma TombstoneIsReadable(p: Platform, r: PluginRecord, now: Time)
    requires Readable(p, r) && Dated(now)
    ensures Readable(p, Advance(r, now).(deletedAt := Some(now), enabledAt := None))
  {
  }

  lemma InvalidIsRefused(p: Platform, t: Catalog, owner: string, r: PluginRecord, expected: Binding, next: Binding,
                         shape: Shape, now: Time)
    requires !ValidBinding(expected)
    ensures Install(p, t, owner, r, Some(expected), next, shape, now).Failure?
  {
  }

  lemma SameShape(p: Platform, r: PluginRecord, a: Binding, b: Binding, shape: Shape)
    requires a.shapeHash == b.shapeHash
    ensures CheckRecordShape(p, r, a, shape) == CheckRecordShape(p, r, b, shape)
  {
  }
}
