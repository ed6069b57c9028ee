/** Which data generations a step of the control store can add or lose. */
module CatalogConservation {
  import opened Outcomes
  import opened ControlRows
  import opened DataCatalog
  import opened CatalogInvariant
  import opened FileGrants
  import opened CatalogRuns

  ghost predicate HeldBy(s: Catalog, key: Key, generation: string) {
    Held(key, BindingAt(s, key), s.history, generation)
  }

  /** Some instance of the owner, installed or not, holds the generation. */
  ghost predicate Refers(s: Catalog, owner: string, generation: string) {
    exists instance :: HeldBy(s, Key(owner, instance), generation)
  }

  lemma HolderIsUnique(s: Catalog, owner: string, a: string, b: string, generation: string)
    requires GenerationsUnique(s.bindings, s.history)
    requires HeldBy(s, Key(owner, a), generation) && HeldBy(s, Key(owner, b), generation)
    ensures a == b
  {
  }

  ghost predicate Commits(p: Platform, s: Catalog, q: Request) {
    match q.op
    case DoInstall(record, expected, next, shape, now) =>
      Install(p, s, q.owner, record, expected, next, shape, now).Success?
    case DoUninstall(instance, deleteData, revision, until, now) =>
      Uninstall(p, s, q.owner, instance, deleteData, revision, until, now).Success?
    case DoSwapImport(revision, expected, next, shape, now) =>
      SwapImport(p, s, q.owner, revision, expected, next, shape, now).Success?
    case DoBindRetained(source, instance, revision, shape, now) =>
      BindRetained(p, s, q.owner, source, instance, revision, shape, now).Success?
    case DoDeleteRetained(source) => DeleteRetained(s, q.owner, source).Success?
    case DoCleanup(now, expired) => CleanupExpired(s, q.owner, now, expired).Success?
    case DoVersion(expected, record, previous, active, retained, now, external) =>
      CommitVersion(p, s, q.owner, expected, record, previous, active, retained, now, external).Success?
    case DoPut(record, now) => PutPlugin(p, s, q.owner, record, now).Success?
    case DoUpdateExternal(record, revision, now) => UpdateExternal(p, s, q.owner, record, revision, now).Success?
    case DoRecover(plan, shape, now) => RecoverRetained(p, s, q.owner, plan, shape, now).Success?
    case DoSetEnable(instance, state, reason, now) =>
      SetEnableState(p, s, q.owner, instance, state, reason, now).Success?
    case DoBump(instance, now) => BumpRevokeEpoch(p, s, q.owner, instance, now).Success?
    case DoGrant(resource, grant, payloadValid, revisions, now) =>
      Create(s, resource, grant, payloadValid, revisions, now).Success?
    case DoRevoke(resource, revision, now) => Revoke(s, resource, revision, now).Success?
  }

  /** A committed request that may give up a generation, and which ones it gives up. */
  ghost predicate GivesUp(s: Catalog, q: Request, generation: string) {
    match q.op
    case DoInstall(record, expected, _, _, _) => expected.None? && HeldBy(s, Key(q.owner, record.instance), generation)
    case DoUninstall(instance, deleteData, _, _, _) => deleteData && HeldBy(s, Key(q.owner, instance), generation)
    case DoSwapImport(_, expected, _, _, _) => expected.Some? && generation == expected.value.generation
    case DoDeleteRetained(source) => HeldBy(s, Key(q.owner, source.instance), generation)
    case DoCleanup(_, expired) => exists b <- expired :: HeldBy(s, Key(q.owner, b.instance), generation)
    case _ => false
  }

  /** The one generation a committed request may add. */
  ghost predicate TakesUp(q: Request, generation: string) {
    match q.op
    case DoInstall(_, expected, next, _, _) => expected.None? && generation == next.generation
    case DoSwapImport(_, _, next, _, _) => generation == next.generation
    case DoVersion(_, _, _, active, retained, _, _) => retained.None? && generation == active.generation
    case _ => false
  }

  // ---------------------------------------------------------------------------
  // Who holds what after each transaction
  // ---------------------------------------------------------------------------

  lemma InstallHolders(p: Platform, s: Catalog, owner: string, record: PluginRecord, expected: Option<Binding>,
                       next: Binding, shape: Shape, now: Time, k: Key, g: string)
    requires ForeignKeys(s)
    requires Install(p, s, owner, record, expected, next, shape, now).Success?
    ensures var s' := Install(p, s, owner, record, expected, next, shape, now).value.0;
            HeldBy(s', k, g) <==>
              if expected.None? && k == Key(owner, record.instance) then g == next.generation else HeldBy(s, k, g)
  {
    hide CheckRecordShape, ValidBinding, Readable, Blank;
  }

  lemma UninstallHolders(p: Platform, s: Catalog, owner: string, instance: string, deleteData: bool, revision: nat,
                         until: Option<Time>, now: Time, k: Key, g: string)
    requires Uninstall(p, s, owner, instance, deleteData, revision, until, now).Success?
    ensures var s' := Uninstall(p, s, owner, instance, deleteData, revision, until, now).value.0;
            HeldBy(s', k, g) <==> HeldBy(s, k, g) && !(deleteData && k == Key(owner, instance))
  {
    hide Readable;
  }

  lemma SwapImportHolders(p: Platform, s: Catalog, owner: string, revision: nat, expected: Option<Binding>,
                          next: Binding, shape: Shape, now: Time, k: Key, g: string)
    requires GenerationsUnique(s.bindings, s.history)
    requires SwapImport(p, s, owner, revision, expected, next, shape, now).Success?
    ensures var s' := SwapImport(p, s, owner, revision, expected, next, shape, now).value;
            HeldBy(s', k, g) <==>
              if k == Key(owner, next.instance)
              then g == next.generation || (HeldBy(s, k, g) && !(expected.Some? && g == expected.value.generation))
              else HeldBy(s, k, g)
  {
    hide CheckRecordShape, ValidBinding, Readable, Rebind;
  }

  lemma BindRetainedHolders(p: Platform, s: Catalog, owner: string, source: Binding, instance: string, revision: nat,
                            shape: Shape, now: Time, k: Key, g: string)
    requires GenerationsUnique(s.bindings, s.history)
    requires BindRetained(p, s, owner, source, instance, revision, shape, now).Success?
    ensures var r := BindRetained(p, s, owner, source, instance, revision, shape, now).value;
            && HeldBy(s, Key(owner, source.instance), source.generation)
            && (HeldBy(r.0, k, g) <==>
                  if g == source.generation && k.owner == owner then k.instance == r.1.instance else HeldBy(s, k, g))
  {
    hide CheckRecordShape, ValidBinding, Readable, Trim;
  }

  lemma DropDataHolders(s: Catalog, keys: set<Key>, k: Key, g: string)
    ensures HeldBy(DropData(s, keys), k, g) <==> HeldBy(s, k, g) && k !in keys
  {
  }

  lemma VersionHolders(p: Platform, s: Catalog, owner: string, expected: PluginRecord, next: PluginRecord,
                       previous: Binding, active: Binding, retained: Option<Binding>, now: Time, external: bool, k: Key,
                       g: string)
    requires CommitVersion(p, s, owner, expected, next, previous, active, retained, now, external).Success?
    ensures var s' := CommitVersion(p, s, owner, expected, next, previous, active, retained, now, external).value.0;
            HeldBy(s', k, g) <==>
              HeldBy(s, k, g) || (retained.None? && k == Key(owner, expected.instance) && g == active.generation)
  {
    hide CommitVersion, BindingMatches, HistoryDecodes, BindPackage, Readable;
    CommitVersionEffect(p, s, owner, expected, next, previous, active, retained, now, external);
  }

  lemma RecoverHolders(p: Platform, s: Catalog, owner: string, plan: RecoveryPlan, shape: Shape, clock: Time, k: Key,
                       g: string)
    requires GenerationsUnique(s.bindings, s.history)
    requires RecoverRetained(p, s, owner, plan, shape, clock).Success?
    ensures var s' := RecoverRetained(p, s, owner, plan, shape, clock).value.0;
            && HeldBy(s, Key(owner, plan.source.instance), plan.source.generation)
            && HeldBy(s, Key(owner, plan.target.instance), plan.target.generation)
            && (HeldBy(s', k, g) <==>
                  if k.owner == owner && g == plan.source.generation then k.instance == plan.target.instance
                  else if k.owner == owner && g == plan.target.generation then k.instance == plan.source.instance
                  else HeldBy(s, k, g))
  {
    hide CheckRecordShape, ValidBinding, Readable, Rebind, Trim;
  }

  lemma SwitchHolders(p: Platform, s: Catalog, owner: string, record: PluginRecord, revision: nat, now: Time, k: Key,
                      g: string)
    ensures HeldBy(After(s, PutPlugin(p, s, owner, record, now)), k, g) <==> HeldBy(s, k, g)
    ensures HeldBy(After(s, UpdateExternal(p, s, owner, record, revision, now)), k, g) <==> HeldBy(s, k, g)
  {
    hide Readable, BindVersionSwitch, PreparePut, Blank;
  }

  lemma EnableHolders(p: Platform, s: Catalog, owner: string, instance: string, state: EnableState, reason: string,
                      now: Time, k: Key, g: string)
    ensures HeldBy(After(s, SetEnableState(p, s, owner, instance, state, reason, now)), k, g) <==> HeldBy(s, k, g)
    ensures HeldBy(After(s, BumpRevokeEpoch(p, s, owner, instance, now)), k, g) <==> HeldBy(s, k, g)
  {
    hide Readable;
  }

  // ---------------------------------------------------------------------------
  // Conservation
  // ---------------------------------------------------------------------------

  /** The generations an owner refers to after a step, in terms of those before it. */
  ghost predicate Conserves(p: Platform, s: Catalog, q: Request, owner: string, g: string) {
    Refers(Step(p, s, q), owner, g) <==>
      || (Refers(s, owner, g) && !(owner == q.owner && Commits(p, s, q) && GivesUp(s, q, g)))
      || (owner == q.owner && Commits(p, s, q) && TakesUp(q, g))
  }

  /** A transaction that makes one instance's holdings exactly one generation more, less, or both. */
  lemma OneHolderChanges(s: Catalog, s': Catalog, owner: string, instance: string, g: string, gone: bool, come: bool)
    requires forall i :: HeldBy(s', Key(owner, i), g) <==>
               if i == instance then come || (HeldBy(s, Key(owner, i), g) && !gone) else HeldBy(s, Key(owner, i), g)
    requires gone ==> HeldBy(s, Key(owner, instance), g)
    requires GenerationsUnique(s.bindings, s.history)
    ensures Refers(s', owner, g) <==> come || (Refers(s, owner, g) && !gone)
  {
    hide Held, GenerationsUnique, BindingAt;
    if Refers(s', owner, g) {
      var i :| HeldBy(s', Key(owner, i), g);
      if gone && HeldBy(s, Key(owner, i), g) { HolderIsUnique(s, owner, i, instance, g); }
    }
    if come { assert HeldBy(s', Key(owner, instance), g); }
    if Refers(s, owner, g) && !gone {
      var i :| HeldBy(s, Key(owner, i), g);
      assert HeldBy(s', Key(owner, i), g);
    }
  }

  /** A transaction that passes generations from one instance to another. */
  lemma HolderMoves(s: Catalog, s': Catalog, owner: string, g: string, before: string, after: string)
    requires HeldBy(s, Key(owner, before), g) && HeldBy(s', Key(owner, after), g)
    ensures Refers(s, owner, g) && Refers(s', owner, g)
  {
  }

  lemma RemoveOrReplaceConserves(p: Platform, s: Catalog, q: Request, owner: string, g: string)
    requires Inv(p, s)
    requires q.op.DoInstall? || q.op.DoUninstall? || q.op.DoSwapImport? || q.op.DoDeleteRetained?
    ensures Conserves(p, s, q, owner, g)
  {
    hide HeldBy, Install, Uninstall, SwapImport, CheckRetained, GenerationsUnique, RowsFit, HistoryReadable, DropData;
    var s' := Step(p, s, q);
    var mine := owner == q.owner;
    match q.op
    case DoInstall(record, expected, next, shape, now) =>
      if Install(p, s, q.owner, record, expected, next, shape, now).Success? {
        forall k { InstallHolders(p, s, q.owner, record, expected, next, shape, now, k, g); }
        OneHolderChanges(s, s', owner, record.instance, g,
                         mine && expected.None? && HeldBy(s, Key(owner, record.instance), g), mine && expected.None?
                         && g == next.generation);
      }
    case DoUninstall(instance, deleteData, revision, until, now) =>
      if Uninstall(p, s, q.owner, instance, deleteData, revision, until, now).Success? {
        forall k { UninstallHolders(p, s, q.owner, instance, deleteData, revision, until, now, k, g); }
        OneHolderChanges(s, s', owner, instance, g, mine && deleteData && HeldBy(s, Key(owner, instance), g), false);
      }
    case DoSwapImport(revision, expected, next, shape, now) =>
      if SwapImport(p, s, q.owner, revision, expected, next, shape, now).Success? {
        forall k { SwapImportHolders(p, s, q.owner, revision, expected, next, shape, now, k, g); }
        SwapImportReplaces(p, s, q.owner, revision, expected, next, shape, now);
        OneHolderChanges(s, s', owner, next.instance, g,
                         mine && expected.Some? && g == expected.value.generation, mine && g == next.generation);
      }
    case DoDeleteRetained(source) =>
      if DeleteRetained(s, q.owner, source).Success? {
        forall k { DropDataHolders(s, {Key(q.owner, source.instance)}, k, g); }
        OneHolderChanges(s, s', owner, source.instance, g, mine && HeldBy(s, Key(owner, source.instance), g), false);
      }
  }

  lemma SwapImportReplaces(p: Platform, s: Catalog, owner: string, revision: nat, expected: Option<Binding>,
                           next: Binding, shape: Shape, now: Time)
    requires SwapImport(p, s, owner, revision, expected, next, shape, now).Success?
    ensures expected.Some? ==> HeldBy(s, Key(owner, next.instance), expected.value.generation)
  {
    hide CheckRecordShape, ValidBinding, Readable, Rebind;
  }

  lemma CleanupConserves(p: Platform, s: Catalog, q: Request, owner: string, g: string)
    requires Inv(p, s) && q.op.DoCleanup?
    ensures Conserves(p, s, q, owner, g)
  {
    hide HeldBy, CheckExpired, GenerationsUnique, RowsFit, HistoryReadable, DropData;
    var s' := Step(p, s, q);
    if CleanupExpired(s, q.owner, q.op.now, q.op.expired).Success? {
      var keys := set b | b in q.op.expired :: Key(q.owner, b.instance);
      forall k ensures HeldBy(s', k, g) <==> HeldBy(s, k, g) && k !in keys { DropDataHolders(s, keys, k, g); }
      if Refers(s', owner, g) {
        var i :| HeldBy(s', Key(owner, i), g);
        forall b <- q.op.expired | owner == q.owner && HeldBy(s, Key(owner, b.instance), g) ensures false {
          HolderIsUnique(s, owner, i, b.instance, g);
        }
      }
      if Refers(s, owner, g) && !Refers(s', owner, g) {
        var i :| HeldBy(s, Key(owner, i), g);
        assert Key(owner, i) in keys;
      }
    }
  }

  lemma MoveConserves(p: Platform, s: Catalog, q: Request, owner: string, g: string)
    requires Inv(p, s)
    requires q.op.DoBindRetained? || q.op.DoRecover? || q.op.DoVersion?
    ensures Conserves(p, s, q, owner, g)
  {
    hide HeldBy, BindRetained, RecoverRetained, CommitVersion, GenerationsUnique, RowsFit, HistoryReadable;
    var s' := Step(p, s, q);
    match q.op
    case DoBindRetained(source, instance, revision, shape, now) =>
      if BindRetained(p, s, q.owner, source, instance, revision, shape, now).Success? {
        forall k { BindRetainedHolders(p, s, q.owner, source, instance, revision, shape, now, k, g); }
        if owner == q.owner && g == source.generation {
          HolderMoves(s, s', owner, g, source.instance,
                      BindRetained(p, s, q.owner, source, instance, revision, shape, now).value.1.instance);
        } else {
          OneHolderChanges(s, s', owner, source.instance, g, false, false);
        }
      }
    case DoRecover(plan, shape, now) =>
      if RecoverRetained(p, s, q.owner, plan, shape, now).Success? {
        forall k { RecoverHolders(p, s, q.owner, plan, shape, now, k, g); }
        if owner == q.owner && g == plan.source.generation {
          HolderMoves(s, s', owner, g, plan.source.instance, plan.target.instance);
        } else if owner == q.owner && g == plan.target.generation {
          HolderMoves(s, s', owner, g, plan.target.instance, plan.source.instance);
        } else {
          OneHolderChanges(s, s', owner, plan.source.instance, g, false, false);
        }
      }
    case DoVersion(expected, record, previous, active, retained, now, external) =>
      if CommitVersion(p, s, q.owner, expected, record, previous, active, retained, now, external).Success? {
        forall k { VersionHolders(p, s, q.owner, expected, record, previous, active, retained, now, external, k, g); }
        OneHolderChanges(s, s', owner, expected.instance, g, false, owner == q.owner && retained.None?
                         && g == active.generation);
      }
  }

  lemma RecordStepConserves(p: Platform, s: Catalog, q: Request, owner: string, g: string)
    requires Inv(p, s)
    requires q.op.DoPut? || q.op.DoUpdateExternal? || q.op.DoSetEnable? || q.op.DoBump? || q.op.DoGrant?
             || q.op.DoRevoke?
    ensures Conserves(p, s, q, owner, g)
  {
    hide Held, PutPlugin, UpdateExternal, SetEnableState, BumpRevokeEpoch, Evicted, ActiveIn, ValidKey,
         GenerationsUnique, RowsFit, HistoryReadable;
    var s' := Step(p, s, q);
    forall k ensures HeldBy(s', k, g) <==> HeldBy(s, k, g) {
      match q.op
      case DoPut(record, now) => SwitchHolders(p, s, q.owner, record, 0, now, k, g);
      case DoUpdateExternal(record, revision, now) => SwitchHolders(p, s, q.owner, record, revision, now, k, g);
      case DoSetEnable(instance, state, reason, now) =>
        EnableHolders(p, s, q.owner, instance, state, reason, now, k, g);
      case DoBump(instance, now) => EnableHolders(p, s, q.owner, instance, Enabled, "", now, k, g);
      case DoGrant(_, _, _, _, _) =>
      case DoRevoke(_, _, _) =>
    }
    OneHolderChanges(s, s', owner, "", g, false, false);
  }

  /**
   * A step keeps every generation every owner refers to, except those the request itself gives up by
   * replacing an imported dataset, deleting retained or expired data, uninstalling with its data, or
   * installing anew over a removed instance; an upgrade, an import and a first install add the one they name.
   */
  lemma StepConserves(p: Platform, s: Catalog, q: Request, owner: string, g: string)
    requires Inv(p, s)
    ensures Conserves(p, s, q, owner, g)
  {
    hide Inv, Conserves;
    match q.op
    case DoInstall(_, _, _, _, _) => RemoveOrReplaceConserves(p, s, q, owner, g);
    case DoUninstall(_, _, _, _, _) => RemoveOrReplaceConserves(p, s, q, owner, g);
    case DoSwapImport(_, _, _, _, _) => RemoveOrReplaceConserves(p, s, q, owner, g);
    case DoDeleteRetained(_) => RemoveOrReplaceConserves(p, s, q, owner, g);
    case DoCleanup(_, _) => CleanupConserves(p, s, q, owner, g);
    case DoBindRetained(_, _, _, _, _) => MoveConserves(p, s, q, owner, g);
    case DoRecover(_, _, _) => MoveConserves(p, s, q, owner, g);
    case DoVersion(_, _, _, _, _, _, _) => MoveConserves(p, s, q, owner, g);
    case _ => RecordStepConserves(p, s, q, owner, g);
  }
}
