/** One small catalog on which the operations that do not guard the invariant break it. */
module CatalogCounterexamples {
  import opened Outcomes
  import opened ControlRows
  import opened DataCatalog
  import opened CatalogInvariant
  import opened FileGrants
  import opened CatalogShapes

  const OWNER := "owner"
  const INSTANCE := "instance"
  const HERE := Key(OWNER, INSTANCE)

  function Layout(canonical: string): Shape { Shape("publisher", "plugin", canonical) }

  /** A decoder under which every manifest declares its own layout. */
  function Example(): Platform {
    Platform(canonical => Some(Manifest("publisher", "plugin", canonical, Some(Layout(canonical)))),
             text => text, (shape: Shape) => Some(shape.layout), (owner, pkg) => true, text => true)
  }

  function Pkg(name: string): Package { Package(name, name, name, "sha256:" + name, name) }

  function Installed(name: string, epoch: nat): PluginRecord {
    PluginRecord(OWNER, INSTANCE, "publisher", "plugin", Pkg(name), Enabled, "", Revisions(1, 1, epoch), [], 1, Some(1),
                 1, None)
  }

  function InUse(): Binding { Binding(INSTANCE, "generation", Active, 1, "a", None, None) }

  /** One enabled plugin with package "a" and one dataset of its layout. */
  function OnePlugin(epoch: nat): Catalog {
    Catalog(map[HERE := Installed("a", epoch)], map[HERE := InUse()], map[], map[])
  }

  lemma NotBlank(s: string)
    requires s != "" && !IsSpace(s[0])
    ensures !Blank(s)
  {
    assert s[0] in s;
  }

  lemma OnePluginIsSane(epoch: nat)
    ensures Inv(Example(), OnePlugin(epoch))
  {
    NotBlank(INSTANCE);
    NotBlank("generation");
    NotBlank("a");
    var s := OnePlugin(epoch);
    assert RowFits(Example(), HERE, s.records[HERE], BindingAt(s, HERE), s.history);
  }

  /** The names used below are not blank. */
  lemma Names()
    ensures !Blank(INSTANCE) && !Blank("generation") && !Blank("new") && !Blank("a") && !Blank("b") && !Blank("a2")
  {
    NotBlank(INSTANCE);
    NotBlank("generation");
    NotBlank("new");
    NotBlank("a");
    NotBlank("b");
    NotBlank("a2");
  }

  /**
   * A retention deadline is accepted although, as its column holds it, it does not lie after the stored time of the
   * uninstall, and no read accepts the binding again.
   */
  lemma DeadlineBreaksInvariant(until: Time, now: Time)
    requires Dated(now) && Nanos(until) <= Nanos(now)
    ensures Inv(Example(), OnePlugin(1))
    ensures var r := Uninstall(Example(), OnePlugin(1), OWNER, INSTANCE, false, 1, Some(until), now);
            r.Success? && !Inv(Example(), r.value.0) && ReadBinding(r.value.0, HERE).Failure?
  {
    OnePluginIsSane(1);
    hide Nanos, Dated;
    assert Dated(1) by { SmallTimes(); }
    var r := Uninstall(Example(), OnePlugin(1), OWNER, INSTANCE, false, 1, Some(until), now);
    assert r.Success?;
    var s := r.value.0;
    assert !ValidBinding(s.bindings[HERE]);
    if Inv(Example(), s) { RowAt(Example(), s, HERE); }
  }

  /** A deadline that is not in the future is such a deadline. */
  lemma PastDeadlineBreaksInvariant()
    ensures var r := Uninstall(Example(), OnePlugin(1), OWNER, INSTANCE, false, 1, Some(5), 5);
            && Inv(Example(), OnePlugin(1))
            && r.Success? && !Inv(Example(), r.value.0) && ReadBinding(r.value.0, HERE).Failure?
  {
    hide Uninstall, Inv, ReadBinding;
    DeadlineBreaksInvariant(5, 5);
  }

  /** A deadline at the end of the year 9999 lies ahead, and is stored as one in 1816. */
  lemma FarDeadlineBreaksInvariant()
    ensures YEAR_2026 < END_OF_9999
    ensures var r := Uninstall(Example(), OnePlugin(1), OWNER, INSTANCE, false, 1, Some(END_OF_9999), YEAR_2026);
            && Inv(Example(), OnePlugin(1))
            && r.Success? && !Inv(Example(), r.value.0) && ReadBinding(r.value.0, HERE).Failure?
  {
    hide Uninstall, Inv, ReadBinding;
    BadTimesExist();
    DeadlineBreaksInvariant(END_OF_9999, YEAR_2026);
  }

  /** Records that meet all but one part of what a put needs to fit. */
  predicate Misfit(record: PluginRecord) {
    || record == Installed("b", 1)                                                        // another shape
    || record == Installed("a", 1).(deletedAt := Some(5))                                 // deleted
    || record == Installed("a", 1).(versions := [PackageVersion("nowhere", Pkg("z"), 1)]) // versions of nothing
  }

  lemma MisfitCommits(record: PluginRecord)
    requires Misfit(record)
    ensures PutPlugin(Example(), OnePlugin(1), OWNER, record, 5).Success?
  {
    Names();
    hide Blank, Nanos;
    assert ReadBinding(OnePlugin(1), HERE) == Success(Some(InUse()));
  }

  lemma MisfitDoesNotFit(record: PluginRecord)
    requires Misfit(record)
    ensures !PutFits(Example(), OnePlugin(1), HERE, record)
  {
    if record.versions != [] { assert record.versions[0] in record.versions; }
  }

  /** Putting any of them commits on a sane catalog and breaks it. */
  lemma PutBreaksInvariant(record: PluginRecord)
    requires Misfit(record)
    ensures Inv(Example(), OnePlugin(1))
    ensures var r := PutPlugin(Example(), OnePlugin(1), OWNER, record, 5); r.Success? && !Inv(Example(), r.value.0)
  {
    OnePluginIsSane(1);
    MisfitCommits(record);
    MisfitDoesNotFit(record);
    hide PutPlugin, Inv, PutFits;
    PutPluginKeepsIff(Example(), OnePlugin(1), OWNER, record, 5);
  }

  function Newcomer(): PluginRecord {
    Installed("a", 0).(revisions := Revisions(0, 0, 0), versions := [PackageVersion("nowhere", Pkg("z"), 1)])
  }

  const EMPTY := Catalog(map[], map[], map[], map[])

  lemma NewcomerCommits()
    ensures Install(Example(), EMPTY, OWNER, Newcomer(), None, InUse(), Layout("a"), 5).Success?
    ensures !InstallFits(EMPTY, HERE, Newcomer(), None, InUse())
  {
    Names();
    hide Blank, Cascade;
    assert Newcomer().versions[0] in Newcomer().versions;
    assert InstallBase(EMPTY, HERE, None).history == map[] by { CascadeOfNothing(EMPTY, HERE); }
  }

  /** A first install that lists a version of data nobody holds commits and leaves it dangling. */
  lemma InstallBreaksInvariant()
    ensures var r := Install(Example(), EMPTY, OWNER, Newcomer(), None, InUse(), Layout("a"), 5);
            Inv(Example(), EMPTY) && r.Success? && !Inv(Example(), r.value.0)
  {
    NewcomerCommits();
    hide Install, InstallFits;
    InstallKeepsIff(Example(), EMPTY, OWNER, Newcomer(), None, InUse(), Layout("a"), 5);
  }

  // ---------------------------------------------------------------------------
  // Version changes
  // ---------------------------------------------------------------------------

  /** The binding of an upgrade to package "b" over the dataset in use. */
  function Upgraded(generation: string): Binding { Binding(INSTANCE, generation, Active, 2, "b", None, None) }

  /** An upgrade of the example commits for any clock but the zero time, any generation and any version list. */
  lemma UpgradeCommits(s: Catalog, next: PluginRecord, active: Binding, now: Time)
    requires HERE in s.records && s.records[HERE] == Installed("a", 1)
    requires HERE in s.bindings && s.bindings[HERE] == InUse() && s.history == map[]
    requires next == Installed("b", 1).(versions := next.versions) && forall v <- next.versions :: Dated(v.activatedAt)
    requires active == Upgraded(active.generation) && !Blank(active.generation) && active.generation != "generation"
    requires Dated(now) && now != ZERO_TIME
    ensures CommitVersion(Example(), s, OWNER, Installed("a", 1), next, InUse(), active, None, now, false).Success?
  {
    Names();
    hide Blank, Nanos, Dated, BindPackage;
    assert Dated(1) by { SmallTimes(); }
    assert ReadBinding(s, HERE) == Success(Some(InUse()));
    BoundIsDated(next.versions, "a", "generation");
  }

  lemma SmallTimes()
    ensures Dated(1) && Dated(5)
  {
  }

  lemma BoundIsDated(versions: seq<PackageVersion>, packageHash: string, generation: string)
    requires forall v <- versions :: Dated(v.activatedAt)
    ensures forall v <- BindPackage(versions, packageHash, generation) :: Dated(v.activatedAt)
  {
    var bound := BindPackage(versions, packageHash, generation);
    forall v <- bound ensures Dated(v.activatedAt) {
      var i :| 0 <= i < |bound| && bound[i] == v;
      assert versions[i] in versions;
    }
  }

  /** A version change whose time is not stored as a positive number leaves a history row that cannot be read. */
  lemma BadTimeIsUnreadable(p: Platform, s: Catalog, owner: string, expected: PluginRecord, next: PluginRecord,
                            previous: Binding, active: Binding, retained: Option<Binding>, now: Time, external: bool)
    requires Inv(p, s) && Nanos(now) <= 0
    requires CommitVersion(p, s, owner, expected, next, previous, active, retained, now, external).Success?
    ensures var t := CommitVersion(p, s, owner, expected, next, previous, active, retained, now, external).value.0;
            var slot := Slot(Key(owner, expected.instance), previous.generation);
            !Inv(p, t) && slot in t.history && !HistoryDecodes(p, slot, t.history[slot])
  {
    hide CommitVersion, HistoryDecodes, ChangeNamesHeld, Readable, BindPackage, Unbound, Nanos, RowsFit;
    CommitVersionKeepsIff(p, s, owner, expected, next, previous, active, retained, now, external);
    CommitVersionEffect(p, s, owner, expected, next, previous, active, retained, now, external);
    RowAt(p, s, Key(owner, expected.instance));
  }

  /**
   * An upgrade at any time that is stored as zero or less commits, and what it files in the history can never be read.
   * The year 1970 is such a time, and so is the year 2300.
   */
  lemma UpgradeTimeBreaksInvariant(now: Time)
    requires Dated(now) && now != ZERO_TIME && Nanos(now) <= 0
    ensures Inv(Example(), OnePlugin(1))
    ensures var r := CommitVersion(Example(), OnePlugin(1), OWNER, Installed("a", 1), Installed("b", 1), InUse(),
                                   Upgraded("new"), None, now, false);
            && r.Success? && !Inv(Example(), r.value.0)
            && var slot := Slot(HERE, "generation");
            slot in r.value.0.history && !HistoryDecodes(Example(), slot, r.value.0.history[slot])
  {
    OnePluginIsSane(1);
    Names();
    UpgradeCommits(OnePlugin(1), Installed("b", 1), Upgraded("new"), now);
    BadTimeIsUnreadable(Example(), OnePlugin(1), OWNER, Installed("a", 1), Installed("b", 1), InUse(), Upgraded("new"),
                        None, now, false);
  }

  const YEAR_2026: Time := 1767225600000000000
  const YEAR_2300: Time := 10413792000000000000
  const END_OF_9999: Time := 253402300799000000000

  lemma BadTimesExist()
    ensures Dated(0) && Nanos(0) <= 0 && Dated(YEAR_2300) && Nanos(YEAR_2300) <= 0
    ensures YEAR_2026 < END_OF_9999 && Nanos(END_OF_9999) <= Nanos(YEAR_2026)
  {
  }

  /** An upgrade whose list names data nobody holds commits and leaves it dangling. */
  lemma UpgradeListBreaksInvariant()
    ensures Inv(Example(), OnePlugin(1))
    ensures var next := Installed("b", 1).(versions := [PackageVersion("nowhere", Pkg("z"), 1)]);
            var r := CommitVersion(Example(), OnePlugin(1), OWNER, Installed("a", 1), next, InUse(), Upgraded("new"),
                                   None, 5, false);
            r.Success? && !Inv(Example(), r.value.0)
  {
    var next := Installed("b", 1).(versions := [PackageVersion("nowhere", Pkg("z"), 1)]);
    OnePluginIsSane(1);
    Names();
    SmallTimes();
    UpgradeCommits(OnePlugin(1), next, Upgraded("new"), 5);
    assert next.versions[0] in next.versions;
    assert !ChangeNamesHeld(OnePlugin(1), HERE, Installed("a", 1), next.versions, InUse(), Upgraded("new"));
    hide CommitVersion, Inv, ChangeNamesHeld;
    CommitVersionKeepsIff(Example(), OnePlugin(1), OWNER, Installed("a", 1), next, InUse(), Upgraded("new"), None, 5,
                          false);
  }

  // ---------------------------------------------------------------------------
  // Generations that another instance holds
  // ---------------------------------------------------------------------------

  const OTHER := "other"
  const THERE := Key(OWNER, OTHER)

  function Elsewhere(): Binding { InUse().(instance := OTHER, generation := OTHER) }

  /** Two plugins with package "a" and a dataset each; the first may be disabled. */
  function TwoPlugins(enable: EnableState): Catalog {
    Catalog(map[HERE := Installed("a", 1).(enable := enable), THERE := Installed("a", 1).(instance := OTHER)],
            map[HERE := InUse(), THERE := Elsewhere()], map[], map[])
  }

  lemma TwoPluginsAreSane(enable: EnableState)
    ensures Inv(Example(), TwoPlugins(enable))
  {
    Names();
    NotBlank(OTHER);
    hide Blank;
    var s := TwoPlugins(enable);
    assert RowFits(Example(), HERE, s.records[HERE], BindingAt(s, HERE), s.history);
    assert RowFits(Example(), THERE, s.records[THERE], BindingAt(s, THERE), s.history);
  }

  /** Importing a dataset under a generation another instance uses commits; two bindings then claim it. */
  lemma ImportBreaksInvariant()
    ensures var s, next := TwoPlugins(DisabledByUser), InUse().(generation := OTHER, revision := 2);
            var r := SwapImport(Example(), s, OWNER, 1, Some(InUse()), next, Layout("a"), 5);
            Inv(Example(), s) && r.Success? && !Inv(Example(), r.value)
  {
    var s, next := TwoPlugins(DisabledByUser), InUse().(generation := OTHER, revision := 2);
    TwoPluginsAreSane(DisabledByUser);
    ImportCommits();
    assert !UnusedElsewhere(s, HERE, OTHER) by { assert s.bindings[THERE].generation == OTHER; }
    hide SwapImport, Inv, UnusedElsewhere;
    SwapImportKeepsIff(Example(), s, OWNER, 1, Some(InUse()), next, Layout("a"), 5);
  }

  lemma ImportCommits()
    ensures SwapImport(Example(), TwoPlugins(DisabledByUser), OWNER, 1, Some(InUse()),
                       InUse().(generation := OTHER, revision := 2), Layout("a"), 5).Success?
  {
    Names();
    NotBlank(OTHER);
    hide Blank, Rebind;
  }

  /** Installing another instance over a generation in use commits as well. */
  lemma InstallClashBreaksInvariant()
    ensures var record := Installed("a", 0).(instance := OTHER, revisions := Revisions(0, 0, 0));
            var next := InUse().(instance := OTHER);
            var r := Install(Example(), OnePlugin(1), OWNER, record, None, next, Layout("a"), 5);
            Inv(Example(), OnePlugin(1)) && r.Success? && !Inv(Example(), r.value.0)
  {
    var record := Installed("a", 0).(instance := OTHER, revisions := Revisions(0, 0, 0));
    var next := InUse().(instance := OTHER);
    OnePluginIsSane(1);
    InstallClashCommits();
    assert !InstallFits(OnePlugin(1), THERE, record, None, next) by {
      CascadeOfNothing(OnePlugin(1), THERE);
      assert OnePlugin(1).bindings[HERE].generation == next.generation;
    }
    hide Install, Inv, InstallFits;
    InstallKeepsIff(Example(), OnePlugin(1), OWNER, record, None, next, Layout("a"), 5);
  }

  lemma InstallClashCommits()
    ensures Install(Example(), OnePlugin(1), OWNER,
                    Installed("a", 0).(instance := OTHER, revisions := Revisions(0, 0, 0)), None,
                    InUse().(instance := OTHER), Layout("a"), 5).Success?
  {
    Names();
    NotBlank(OTHER);
    hide Blank, Cascade;
  }

  /** So does an upgrade to such a generation, which is compared with the history only. */
  lemma UpgradeClashBreaksInvariant()
    ensures var s := TwoPlugins(Enabled);
            var r := CommitVersion(Example(), s, OWNER, Installed("a", 1), Installed("b", 1), InUse(), Upgraded(OTHER),
                                   None, 5, false);
            Inv(Example(), s) && r.Success? && !Inv(Example(), r.value.0)
  {
    var s := TwoPlugins(Enabled);
    TwoPluginsAreSane(Enabled);
    NotBlank(OTHER);
    SmallTimes();
    UpgradeCommits(s, Installed("b", 1), Upgraded(OTHER), 5);
    assert !Unbound(s, OWNER, OTHER) by { assert s.bindings[THERE].generation == OTHER; }
    hide CommitVersion, Inv, ChangeNamesHeld, Unbound;
    CommitVersionKeepsIff(Example(), s, OWNER, Installed("a", 1), Installed("b", 1), InUse(), Upgraded(OTHER), None, 5,
                          false);
  }

  // ---------------------------------------------------------------------------
  // A stale external update
  // ---------------------------------------------------------------------------

  /** A second build of package "a": the same manifest, another package. */
  function Rebuilt(): PluginRecord {
    Installed("a", 1).(pkg := Pkg("a").(packageHash := "a2", fingerprint := "a2"),
                       versions := [PackageVersion("", Pkg("a"), 5)])
  }

  function Tombstone(): PluginRecord {
    Installed("a", 2).(revisions := Revisions(1, 2, 2), enabledAt := None, updatedAt := 4, deletedAt := Some(4))
  }

  /** The plugin was removed with its data. */
  function Removed(): Catalog { Catalog(map[HERE := Tombstone()], map[], map[], map[]) }

  function Reused(): Binding { Binding(INSTANCE, "new", Active, 1, "b", None, None) }

  /** Another package was installed under its id; the management revision has started over, the epoch has not. */
  function Replaced(): Catalog {
    Catalog(map[HERE := Installed("b", 2).(installedAt := 5, enabledAt := Some(5), updatedAt := 5)],
            map[HERE := Reused()], map[], map[])
  }

  lemma RemovalCommits()
    ensures Uninstall(Example(), OnePlugin(1), OWNER, INSTANCE, true, 1, None, 4)
            == Success((Removed(), Revisions(1, 2, 2)))
  {
    var r := Uninstall(Example(), OnePlugin(1), OWNER, INSTANCE, true, 1, None, 4);
    assert r.Success?;
    assert r.value.0.records == Removed().records && r.value.0.bindings == Removed().bindings;
    assert r.value.0.history == Removed().history && r.value.0.resources == Removed().resources;
  }

  lemma ReplacementCommits()
    ensures Install(Example(), Removed(), OWNER, Installed("b", 0).(revisions := Revisions(1, 0, 0)), None, Reused(),
                    Layout("b"), 5)
            == Success((Replaced(), Replaced().records[HERE]))
    ensures Inv(Example(), Replaced())
  {
    Names();
    hide Blank;
    assert Cascade(Removed(), HERE) == EMPTY by { CascadeOfOne(); }
    assert RowFits(Example(), HERE, Replaced().records[HERE], Some(Reused()), map[]);
  }

  lemma CascadeOfOne()
    ensures Cascade(Removed(), HERE) == EMPTY
  {
    var left := Cascade(Removed(), HERE);
    assert left.records == map[] && left.bindings == map[];
    assert left.history == map[] && left.resources == map[];
  }

  lemma StaleUpdateCommits()
    ensures UpdateExternal(Example(), Replaced(), OWNER, Rebuilt(), 1, 6).Success?
    ensures !PutFits(Example(), Replaced(), HERE, Rebuilt()) && SwitchVersions(Rebuilt(), Installed("a", 1))
  {
    Names();
    hide Blank, Nanos;
    assert ReadBinding(Replaced(), HERE) == Success(Some(Reused()));
  }

  /**
   * An update built from a plugin that was since removed and installed anew passes the revision check, which compares
   * only the management revision, and breaks the invariant; the revoke epochs tell the two apart.
   */
  lemma StaleUpdateBreaksInvariant()
    ensures Uninstall(Example(), OnePlugin(1), OWNER, INSTANCE, true, 1, None, 4)
            == Success((Removed(), Revisions(1, 2, 2)))
    ensures Install(Example(), Removed(), OWNER, Installed("b", 0).(revisions := Revisions(1, 0, 0)), None, Reused(),
                    Layout("b"), 5)
            == Success((Replaced(), Replaced().records[HERE]))
    ensures var r := UpdateExternal(Example(), Replaced(), OWNER, Rebuilt(), 1, 6);
            && Inv(Example(), Replaced()) && r.Success? && !Inv(Example(), r.value.0)
            && Live(Rebuilt()) && SwitchVersions(Rebuilt(), OnePlugin(1).records[HERE])
            && OnePlugin(1).records[HERE].revisions == Revisions(1, 1, 1)
            && Replaced().records[HERE].revisions == Revisions(1, 1, 2)
  {
    RemovalCommits();
    ReplacementCommits();
    StaleUpdateCommits();
    hide Uninstall, Install, UpdateExternal, Inv, PutFits, SwitchVersions;
    UpdateExternalKeepsIff(Example(), Replaced(), OWNER, Rebuilt(), 1, 6);
  }

  // ---------------------------------------------------------------------------
  // Revisions that start over
  // ---------------------------------------------------------------------------

  /** A reinstall over a tombstone lowers the management revision. */
  lemma ReinstallLowersManagement()
    ensures var tombstone := Installed("a", 9).(revisions := Revisions(1, 9, 9), deletedAt := Some(2));
            var s := Catalog(map[HERE := tombstone], map[], map[], map[]);
            var r := Install(Example(), s, OWNER, Installed("a", 0).(revisions := Revisions(0, 0, 0)), None, InUse(),
                             Layout("a"), 5);
            r.Success? && r.value.1.revisions.management < tombstone.revisions.management
  {
    Names();
  }

  /** Aborting an install and installing again starts the revoke epoch over. */
  lemma AbortLowersEpoch()
    ensures var aborted := AbortInstall(OnePlugin(7), OWNER, INSTANCE);
            && aborted.Success?
            && var r := Install(Example(), aborted.value, OWNER, Installed("a", 0).(revisions := Revisions(0, 0, 0)),
                                None, InUse(), Layout("a"), 5);
            r.Success? && r.value.1.revisions.revokeEpoch == 1 < OnePlugin(7).records[HERE].revisions.revokeEpoch
  {
    Names();
  }

  // ---------------------------------------------------------------------------
  // Grants and the stored clock
  // ---------------------------------------------------------------------------

  const GRANT := ResourceKey(OWNER, "user", INSTANCE, "file")

  lemma GrantKeyIsValid()
    ensures ValidKey(GRANT)
  {
    Solid(OWNER);
    Solid("user");
    Solid(INSTANCE);
    Solid("file");
  }

  lemma Solid(s: string)
    requires s != "" && |s| <= 256 && !IsSpace(s[0]) && !IsSpace(s[|s| - 1])
    ensures ValidPart(s)
  {
  }

  /** A grant that expires in 1970 is created before that, and never usable. */
  lemma EarlyGrantIsUnusable(later: Time)
    ensures var r := Create(OnePlugin(1), GRANT, FileResource("a", 1, 1, 0, None), true, Revisions(1, 1, 1), -5);
            r.Success? && !Usable(r.value, GRANT, later)
  {
    GrantKeyIsValid();
    hide ValidKey;
    var s, none: set<ResourceKey> := OnePlugin(1), {};
    assert ActiveIn(s.resources, GRANT, -5, "a", 1) == none;
    assert s.resources - Evicted(s.resources, GRANT, none) == s.resources;
    CreatedIsUsable(s, GRANT, FileResource("a", 1, 1, 0, None), true, Revisions(1, 1, 1), -5, later);
  }

  /** A revocation whose time is not stored as a positive number, in 1970 or 2300, commits and cannot be repeated. */
  lemma RevocationTimeCannotRepeat(now: Time, again: Time)
    requires now != ZERO_TIME && again != ZERO_TIME && Nanos(now) <= 0
    ensures var s := OnePlugin(1).(resources := map[GRANT := FileResource("a", 1, 1, 9, None)]);
            var r := Revoke(s, GRANT, 1, now); r.Success? && Revoke(r.value, GRANT, 1, again) == Failure(BadGrant)
  {
    GrantKeyIsValid();
    hide ValidKey, Nanos;
    var s := OnePlugin(1).(resources := map[GRANT := FileResource("a", 1, 1, 9, None)]);
    RevokedIsUnusable(s, GRANT, 1, now, again, 1);
  }

  const YEAR_2030: Time := 1893456000000000000
  const YEAR_2031: Time := 1924992000000000000

  /** A grant that has expired is usable again once the clock has passed the range of its column. */
  lemma ExpiredGrantIsUsableAgain()
    ensures var r := Create(OnePlugin(1), GRANT, FileResource("a", 1, 1, YEAR_2030, None), true, Revisions(1, 1, 1),
                            YEAR_2026);
            r.Success? && !Usable(r.value, GRANT, YEAR_2031) && Usable(r.value, GRANT, YEAR_2300)
  {
    GrantKeyIsValid();
    hide ValidKey;
    var s, none: set<ResourceKey> := OnePlugin(1), {};
    var grant := FileResource("a", 1, 1, YEAR_2030, None);
    assert ActiveIn(s.resources, GRANT, Nanos(YEAR_2026), "a", 1) == none;
    assert s.resources - Evicted(s.resources, GRANT, none) == s.resources;
    CreatedIsUsable(s, GRANT, grant, true, Revisions(1, 1, 1), YEAR_2026, YEAR_2031);
    CreatedIsUsable(s, GRANT, grant, true, Revisions(1, 1, 1), YEAR_2026, YEAR_2300);
  }

  // ---------------------------------------------------------------------------
  // Versions of another shape
  // ---------------------------------------------------------------------------

  function Misshapen(): PluginRecord {
    Installed("a", 1).(versions := [PackageVersion("generation", Pkg("z"), 1)])
  }

  /**
   * A put that lists a package of another shape for the data in use commits and keeps the invariant, not the shapes.
   */
  lemma ListBreaksShapes()
    ensures Inv(Example(), OnePlugin(1)) && Shaped(Example(), OnePlugin(1))
    ensures var r := PutPlugin(Example(), OnePlugin(1), OWNER, Misshapen(), 5);
            r.Success? && Inv(Example(), r.value.0) && !Shaped(Example(), r.value.0)
  {
    OnePluginIsSane(1);
    assert RowShaped(Example(), OnePlugin(1), HERE);
    MisshapenCommits();
    MisshapenFits();
    hide PutPlugin, Inv, PutFits, Shaped, PutShaped;
    PutPluginKeepsIff(Example(), OnePlugin(1), OWNER, Misshapen(), 5);
    PutShapesIff(Example(), OnePlugin(1), OWNER, Misshapen(), 5);
  }

  lemma MisshapenCommits()
    ensures PutPlugin(Example(), OnePlugin(1), OWNER, Misshapen(), 5).Success?
  {
    Names();
    hide Blank, Nanos;
  }

  lemma MisshapenFits()
    ensures PutFits(Example(), OnePlugin(1), HERE, Misshapen())
    ensures !PutShaped(Example(), OnePlugin(1), HERE, Misshapen(), Installed("a", 1))
  {
    assert Misshapen().versions[0] in Misshapen().versions;
  }
}
