# redevplugin control store and JSON core, in Dafny

This project models four parts of redevplugin, a host for installable plugins, and proves what they promise over all
inputs and all runs.

* **The control store** keeps plugin records, data bindings, retained data generations, file grants, interval claims,
  executions and session fences in the tables of one database with a single connection. Every exported operation is one
  step that commits or leaves the tables unchanged. Each is written as a function from tables to tables, as a method of
  a class over those tables proved equal to it, and as one of the requests of a run. Foreign-key cascades are part of
  the steps.
* **Bounded JSON values**: number grammar, exact comparison with 2^53-1, one-pass encoded lengths, and the clone of
  possibly cyclic value graphs under depth, node and byte budgets.
* **Canonical JSON**: Go's decoder as a parser of sections 2 to 7 of RFC 8259, the canonical printer, the structural
  checks and the canonicalizer. Keys are sorted by bytes.
* **The manifest cache**: a least recently used cache over heap values that must be invisible to its callers.

Library functions that the code calls but this project does not define (the manifest decoder, digests, shape hashes,
package acceptance) are parameters, so every statement holds for every choice of them, digest collisions included.
Clocks, nonces and new generation ids are parameters of the requests.

Times are unbounded integers. Where the code stores one in a 64-bit column of nanoseconds the model stores what the column
gives back, which wraps around outside the years 1677 to 2262 (`ControlRows.Nanos`). Where the code spells one inside a
JSON text the model refuses years that do not have four digits.

Runs may start in any catalog that satisfies the invariant, the empty one among them
(`CatalogTheorems.EmptyCatalogIsSane`). A request of a run must fit the catalog it meets, in the exact sense of the lemma of its operation, or have been built by the host from a record read in
an earlier state of the run: a version change derived from any earlier read, or an external update of the same shape
while the revoke epoch is still the one read. Clocks do not go back and claim identities are unused where this is said.

The code does not enforce everything its rows need. Wherever it does not, the exact condition is a lemma and a failing
input is another:

| what the code accepts | exact condition | failing input |
|---|---|---|
| a retention deadline that has passed, or lies beyond the year 2262 | `UninstallKeepsIff` | `PastDeadlineBreaksInvariant`, `FarDeadlineBreaksInvariant` |
| an install that lists unknown data | `InstallKeepsIff` | `InstallBreaksInvariant` |
| an install or import under a generation another instance uses | `InstallKeepsIff`, `SwapImportKeepsIff` | `InstallClashBreaksInvariant`, `ImportBreaksInvariant` |
| an upgrade or restore at a time that is not stored as a positive number | `CommitVersionKeepsIff`, `UpgradeThenRestore` | `UpgradeTimeBreaksInvariant` |
| an upgrade to a generation another instance uses, or that lists unknown data | `CommitVersionKeepsIff` | `UpgradeClashBreaksInvariant`, `UpgradeListBreaksInvariant` |
| a put or external update of another shape, marked deleted, or naming unknown data | `PutPluginKeepsIff`, `UpdateExternalKeepsIff` | `PutBreaksInvariant` |
| an external update built before the plugin was removed and installed anew | `UpdateExternalKeepsIff`; an equal revoke epoch suffices, by `EarlierReadFits` | `StaleUpdateBreaksInvariant` |
| a version list whose packages do not have the shape of the data they name | `InstallShapesIff`, `CommitVersionShapesIff`, `PutShapesIff`, `UpdateExternalShapesIff` | `ListBreaksShapes` |
| an aborted install, which forgets the revoke epoch | `AbortForgetsEpochIff` | `AbortLowersEpoch` |
| grants and revocations at times their columns do not hold as they are | `CreatedIsUsable`, `RevokedIsUnusable` | `EarlyGrantIsUnusable`, `ExpiredGrantIsUsableAgain`, `RevocationTimeCannotRepeat` |
| interval plans that cannot be read back | `ReconciliationIsIdempotentIff` | `UnreadablePlanStopsReconciliation` |
| session fences, phases and states that cannot be read back | `StepReadsIff`, `RunReadsIff`; the adapter supplies it, by `AdapterRunIsKept` | `UnknownPhaseStopsTeardown` |

One thing a reader might expect otherwise: preparing a record for storage (`pkg/registry/registry.go`, lines 164-208)
does not append a snapshot of the replaced package. The version list is the caller's, and
`VersionSwitching.HostRecordsAreDerived` proves that the host's lists have the properties the store relies on.

The files, from the bottom up:

| files | contents |
|---|---|
| `Outcomes`, `Ordering`, `Decimals`, `Utf8` | results, orders and ranks, decimal digits, UTF-8 |
| `ControlRows`, `DataCatalog`, `FileGrants`, `VersionSwitching` | rows and transactions of the plugin-data catalog, file grants, the host's version lists |
| `CatalogInvariant`, `CatalogRuns`, `CatalogTheorems`, `CatalogConservation`, `CatalogShapes`, `CatalogCounterexamples`, `HistoryMigration` | what the transactions keep, whole runs, conservation, versions that come back, exact limits, the schema migration |
| `ControlStore` | the transactions as methods on tables |
| `Maintenance` | keyset pagination |
| `JsonNumbers`, `SafeMagnitude`, `JsonStrings` | numbers and encoded lengths |
| `JsonSyntax`, `JsonRoundTrip`, `JsonValues`, `CanonicalJson` | documents, parsing and printing, values, the canonicalizer |
| `GoValues`, `CloneLimits`, `CanonicalClone` | value graphs and their clone |
| `ManifestValues`, `CacheContents`, `ManifestCache` | decoded manifests and their cache |
| `Intervals`, `IntervalStore`, `IntervalRuns` | background intervals |
| `Executions`, `ExecutionStore`, `ExecutionPruning`, `ExecutionInstalls` | executions, pruning, inspected installs |
| `Teardown`, `TeardownStore`, `TeardownRuns`, `TeardownAdapter` | session teardown and the adapter in front of it |

`dafny verify dfyconfig.toml` checks everything.

## Model

| member | source | states |
|---|---|---|
| ControlStore.Store.InstallCommit | internal/controlstore/plugin_data_catalog.go:100-200 | Commits exactly what `DataCatalog.Install` says or leaves all tables unchanged with that error: first install, reinstall over a tombstone (with the foreign-key cascade), and reactivation of retained data |
| ControlStore.Store.SwapImport | internal/controlstore/plugin_data_catalog.go:202-252 | Replaces the dataset of a disabled plugin and moves every version that shared it, as `DataCatalog.SwapImport` says, or changes nothing |
| ControlStore.Store.BindRetained | internal/controlstore/plugin_data_catalog.go:254-317 | Moves a retained dataset to another instance and advances that instance, as `DataCatalog.BindRetained` says, or changes nothing |
| ControlStore.Store.DeleteRetained | internal/controlstore/plugin_data_catalog.go:319-338 | Deletes a retained dataset with its history only if the caller's binding is exactly the stored one |
| ControlStore.Store.CleanupExpired | internal/controlstore/plugin_data_catalog.go:340-368 | Deletes all the listed expired datasets, or none if one of them is not exactly the stored, retained, expired one |
| ControlStore.Store.CommitUninstall | internal/controlstore/plugin_data_catalog.go:370-416 | Leaves a tombstone with both revisions advanced, and retains or deletes the data, as `DataCatalog.Uninstall` says; times go through their 64-bit columns |
| ControlStore.Store.CommitPluginDataVersion | internal/controlstore/plugin_data_upgrade.go:140-272 | Upgrade and restore: exchanges the active dataset with a new or retained one, files the replaced one in the history, and binds the replaced package's snapshots to it, as `DataCatalog.CommitVersion` says, or changes nothing |
| ControlStore.RebindSharedVersionData | internal/controlstore/plugin_data_upgrade.go:288-294 | The in-place loop moves exactly the versions that named one dataset to its replacement |
| ControlStore.BindPreviousPackageData | internal/controlstore/plugin_data_upgrade.go:296-302 | The in-place loop binds exactly the snapshots of one package |
| ControlStore.VersionUsesGeneration | internal/controlstore/plugin_data_upgrade.go:277-284 | The search answers whether some version has the target package and the generation |
| ControlStore.Store.BindVersionSwitchData | internal/controlstore/plugin_data_upgrade.go:304-317 | A switch to another package binds the replaced one to the dataset in use and fails without one |
| ControlStore.Store.PutPlugin | internal/controlstore/views.go:428-477 | Stores a prepared record over a live one with its revisions advanced, or changes nothing |
| ControlStore.Store.UpdateExternalPackage | internal/controlstore/views.go:220-269 | As a put, guarded by the management revision and the acceptance of the package |
| ControlStore.Store.CommitRetainedRecovery | internal/controlstore/retained_recovery.go:13-89 | Exchanges an installed dataset with a retained one of equal shape, rewriting both bindings and both records, or changes nothing |
| ControlStore.Store.SetEnableState | internal/controlstore/views.go:479-501 | Changes the enable state and advances both revisions |
| ControlStore.Store.BumpRevokeEpoch | internal/controlstore/views.go:556-597 | Raises only the revoke epoch |
| ControlStore.Store.AbortInstall | internal/controlstore/views.go:599-608 | Deletes the record and, by foreign key, everything that refers to it |
| ControlStore.Store.CreateSelectedResource | internal/controlstore/selected_resources.go:50-100 | Creates a file grant under the current package and epoch after evicting surplus inactive rows, as `FileGrants.Create` says |
| ControlStore.Store.ReadSelectedResource | internal/controlstore/selected_resources.go:104-131 | Returns the stored grant, or fails if there is none or its stored values are out of range |
| ControlStore.Store.WithSelectedResource | internal/controlstore/selected_resources.go:133-165 | Runs the guarded operation exactly when the grant reads back valid, is not revoked, has not expired, and still has its plugin's package and epoch |
| ControlStore.Store.RevokeSelectedResource | internal/controlstore/selected_resources.go:167-197 | Revokes a grant that reads back valid; repeating it with the same expected revision changes nothing |
| CatalogInvariant.InstallKeepsIff | internal/controlstore/plugin_data_catalog.go:100-200 | Over every catalog that satisfies the invariant (foreign keys, one holder per generation, readable history, bindings matching their records, no dangling version), a committed install keeps it if and only if a new dataset's generation is unused once the replaced rows are gone and every version it lists names its own binding or kept history; the install checks neither |
| CatalogInvariant.UninstallKeepsIff | internal/controlstore/plugin_data_catalog.go:370-416 | A committed uninstall keeps the invariant if and only if no data is retained, there is no deadline, or the deadline as its 64-bit column holds it lies after the stored time of the uninstall |
| CatalogInvariant.SwapImportKeepsIff | internal/controlstore/plugin_data_catalog.go:202-252 | A committed import keeps the invariant, versions that shared the old dataset included, if and only if no other row of the owner uses the imported generation |
| CatalogInvariant.BindRetainedKeeps | internal/controlstore/plugin_data_catalog.go:254-317 | Binding retained data keeps the invariant without any assumption on the request |
| CatalogInvariant.DeleteRetainedKeeps | internal/controlstore/plugin_data_catalog.go:319-338 | Deleting retained data keeps the invariant |
| CatalogInvariant.CleanupKeeps | internal/controlstore/plugin_data_catalog.go:340-368 | Expiry cleanup keeps the invariant |
| CatalogInvariant.ExpiredIsRetained | internal/controlstore/plugin_data_catalog.go:340-368 | What a cleanup deletes is exactly stored, retained and past its deadline |
| CatalogInvariant.CommitVersionEffect | internal/controlstore/plugin_data_upgrade.go:140-272 | The complete effect of a committed upgrade or restore on records, bindings and history; the history row it writes decodes again if and only if its time is stored as a positive number |
| CatalogInvariant.CommitVersionKeepsIff | internal/controlstore/plugin_data_upgrade.go:140-272 | A committed upgrade or restore keeps the invariant if and only if its time is stored as a positive number, a new dataset's generation is unused, and every listed version names data still held or the package replaced; the transaction refuses only the zero time |
| CatalogInvariant.PutPluginKeepsIff | internal/controlstore/views.go:428-477 | A committed put keeps the invariant if and only if, where a dataset is bound, the record is not marked deleted and its package declares that dataset's shape, and a live record lists no generation that will not be held; the put checks none of these |
| CatalogInvariant.UpdateExternalKeepsIff | internal/controlstore/views.go:220-269 | The same exact condition for external package updates |
| CatalogInvariant.DerivedRecordFits | pkg/host/host.go:3392-3427 | A live record of the bound shape whose version list was derived from the stored one meets that condition |
| CatalogInvariant.RecoverRetainedKeeps | internal/controlstore/retained_recovery.go:13-89 | Retained recovery keeps the invariant |
| CatalogInvariant.SetEnableStateKeeps | internal/controlstore/views.go:479-501 | Enabling and disabling keep the invariant |
| CatalogInvariant.BumpRevokeEpochKeeps | internal/controlstore/views.go:556-597 | Raising the epoch keeps the invariant |
| CatalogInvariant.CascadeKeeps | internal/controlstore/controlstore.go:78 | Deleting a record with its foreign-key cascade keeps the invariant |
| ControlRows.NanosAreExact | internal/controlstore/plugin_data_catalog.go:827-840 | A time comes back from its 64-bit column as it was exactly between the years 1677 and 2262; any other comes back as one in that range |
| CatalogCounterexamples.PastDeadlineBreaksInvariant | internal/controlstore/plugin_data_catalog.go:409 | From a sane catalog a concrete uninstall with a deadline that is not in the future commits and leaves a binding no read accepts |
| CatalogCounterexamples.DeadlineBreaksInvariant | internal/controlstore/plugin_data_catalog.go:409 | From a sane catalog an uninstall with any deadline that is stored no later than its own time commits and leaves a binding no read accepts |
| CatalogCounterexamples.FarDeadlineBreaksInvariant | internal/controlstore/plugin_data_catalog.go:409 | A deadline at the end of the year 9999, given in 2026, is such a deadline |
| CatalogCounterexamples.PutBreaksInvariant | internal/controlstore/views.go:428-477 | From a sane catalog each of three puts commits and breaks the invariant: a package of another shape, a record marked deleted, a version list that names unknown data |
| CatalogCounterexamples.InstallBreaksInvariant | internal/controlstore/plugin_data_catalog.go:100-200 | An install into the empty catalog whose record lists unknown data commits and breaks the invariant |
| CatalogCounterexamples.InstallClashBreaksInvariant | internal/controlstore/plugin_data_catalog.go:100-200 | An install under a generation another instance uses commits and breaks the invariant |
| CatalogCounterexamples.ImportBreaksInvariant | internal/controlstore/plugin_data_catalog.go:202-252 | An import under a generation another instance uses commits and breaks the invariant |
| CatalogCounterexamples.UpgradeClashBreaksInvariant | internal/controlstore/plugin_data_upgrade.go:215-224 | An upgrade to a generation another instance uses commits and breaks the invariant |
| CatalogCounterexamples.UpgradeListBreaksInvariant | internal/controlstore/plugin_data_upgrade.go:140-272 | An upgrade whose version list names unknown data commits and breaks the invariant |
| CatalogCounterexamples.UpgradeTimeBreaksInvariant | internal/controlstore/plugin_data_upgrade.go:140-272 | An upgrade of a sane catalog at any time stored as zero or less commits, breaks the invariant and files a history row that does not decode |
| CatalogCounterexamples.StaleUpdateBreaksInvariant | internal/controlstore/views.go:220-269 | A run of uninstall, install and external update in which the update, built before the uninstall, passes its revision check and breaks the invariant; only the revoke epochs differ |
| CatalogCounterexamples.ReinstallLowersManagement | internal/controlstore/plugin_data_catalog.go:546-559 | An install over a tombstone commits with a smaller management revision |
| CatalogCounterexamples.AbortLowersEpoch | internal/controlstore/views.go:599-608 | A concrete aborted install after which the revoke epoch starts over |
| CatalogCounterexamples.EarlyGrantIsUnusable | internal/controlstore/selected_resources.go:50-100 | A grant that expires by 1970 can be created before its expiry and is never usable |
| CatalogCounterexamples.RevocationTimeCannotRepeat | internal/controlstore/selected_resources.go:167-197 | A revocation at any time stored as zero or less commits, and repeating it fails |
| CatalogCounterexamples.ExpiredGrantIsUsableAgain | internal/controlstore/selected_resources.go:133-165 | A grant that expired in 2030 is usable again when the clock reads 2300 |
| CatalogCounterexamples.ListBreaksShapes | internal/controlstore/views.go:428-477 | A put that lists a package of another shape for the data in use commits and keeps the invariant, but not the agreement of versions and shapes |
| CatalogRuns.StepMovesOn | internal/controlstore/plugin_data_catalog.go:546-559 | No request removes a record or lowers its revoke epoch, nor the management revision of a live record; if either stays the same, a live record is still live with the same package and version list |
| CatalogRuns.RunMovesOn | internal/controlstore/plugin_data_catalog.go:546-559 | Between any two states of a run a record's revoke epoch never drops, and if it is the same a live record is still live with the same package and version list |
| CatalogRuns.ManagementMovesOn | internal/controlstore/plugin_data_catalog.go:546-559 | As long as a record stays live its management revision never drops, and if it is the same so are package and version list |
| CatalogRuns.ReadIsCurrent | internal/controlstore/plugin_data_upgrade.go:140-194 | A version change built from a record read in any earlier state commits only if package and versions have not changed since: the revision check is enough |
| CatalogRuns.EarlierReadFits | internal/controlstore/views.go:220-269 | An external update of the same shape built from a record read in any earlier state fits the current catalog if the revoke epoch is still the one that was read |
| CatalogRuns.EarlierChangeFits | internal/controlstore/plugin_data_upgrade.go:140-194 | A version change built from a record read in any earlier state, dated after 1970 and naming an unused generation, fits whenever it commits |
| CatalogRuns.StepKeeps | internal/controlstore/plugin_data_upgrade.go:140-272 | Every request that fits the current catalog, in the exact sense of the lemmas above, or was built from an earlier read keeps the invariant |
| CatalogRuns.RunKeepsInvariant | internal/controlstore/plugin_data_catalog.go:100-416 | The catalog invariant holds in every state of every run |
| CatalogTheorems.NoDanglingData | internal/controlstore/plugin_data_upgrade.go:195-254 | In every reachable state every version of an installed plugin that names data names its active binding or one of its decodable history rows |
| CatalogTheorems.CatalogIsConsistent | internal/controlstore/plugin_data_catalog.go:100-416 | In every reachable state a live record's binding is active with the manifest's shape, a tombstone's is retained, and no generation of an owner appears twice across bindings and history |
| CatalogTheorems.VersionChangeNeverCollides | internal/controlstore/plugin_data_upgrade.go:226-254 | Under the invariant the history insert of an upgrade or restore never meets its primary key, and the row it writes decodes if and only if its time is stored as a positive number |
| CatalogTheorems.UninstallRaisesEpoch | internal/controlstore/plugin_data_catalog.go:388-395 | An uninstall raises the revoke epoch by one |
| CatalogTheorems.RunGrantsBehind | internal/controlstore/selected_resources.go:50-100 | In every run no file grant carries an epoch later than its plugin's |
| CatalogTheorems.UninstallEndsGrants | internal/controlstore/selected_resources.go:133-165 | A file grant made before an uninstall is never usable again, even if the same package and instance id return |
| CatalogTheorems.RunIsBounded | internal/controlstore/selected_resources.go:77-92 | In every run no user holds more than 256 file rows for one plugin |
| CatalogTheorems.AbortInstallKeeps | internal/controlstore/views.go:599-608 | Aborting an install keeps the invariant |
| CatalogTheorems.AbortForgetsEpochIff | internal/controlstore/views.go:599-608 | After an abort a reinstall does not lower the revoke epoch if and only if it was at most one |
| CatalogTheorems.UninstallRetains | internal/controlstore/plugin_data_catalog.go:370-416 | A retaining uninstall commits exactly on the current revision and at a four-digit year, and leaves a tombstone over the same generation and history, with time and deadline as their columns hold them |
| CatalogTheorems.UninstallThenReinstall | internal/controlstore/plugin_data_catalog.go:100-200 | After a retaining uninstall installing the same package again commits if and only if the stored deadline lies after the stored time of the uninstall and the year has four digits; it then puts the same generation back in use with its history, under a later revoke epoch |
| CatalogConservation.StepConserves | internal/controlstore/plugin_data_catalog.go:171-416 | The exact set of generations an owner refers to after any request: nothing is lost except by import replacement, explicit or expired deletion, data-deleting uninstall or reinstall over a removed record, and only first install, import and upgrade add the one they name |
| CatalogConservation.HolderIsUnique | internal/controlstore/plugin_data_catalog.go:100-416 | Under the invariant a generation has one holder |
| VersionSwitching.SelectFinds | pkg/host/host.go:3693-3712 | Selecting a snapshot returns a listed one that matches, and the list without it; it fails only if none matches |
| VersionSwitching.SwitchHistoryIsDerived | pkg/host/host.go:3416-3427 | The host's version list names nothing new but the replaced package and never the package switched to |
| VersionSwitching.HostRecordsAreDerived | pkg/host/host.go:3392-3427 | From a live record the host builds live records for update and downgrade, with version lists that have what the store's invariant asks of them |
| VersionSwitching.ReplacedPackageIsListed | pkg/host/host.go:3714-3724 | After an upgrade the replaced package is listed exactly once, with the generation it used |
| VersionSwitching.RestoreCommits | pkg/plugindata/upgrade.go:33-94 | The store accepts the restore the data store proposes at any time of a four-digit year but the zero time |
| VersionSwitching.RestoreNeeds | internal/controlstore/plugin_data_upgrade.go:140-194 | A restore that commits is at such a time, has revisions below their bound and finds a decodable history row |
| VersionSwitching.UpgradeThenRestore | internal/controlstore/plugin_data_upgrade.go:195-302 | After every committed upgrade the replaced package is selectable with its dataset, and the downgrade to it commits if and only if the upgrade's time was stored as a positive number, the downgrade is at a four-digit year and not at the zero time, and no revision is at its bound; then the original generation is active again under the original package, the upgraded one is retained, and all other rows, file grants included, are as before the upgrade |
| CatalogShapes.InstallShapesIff | internal/controlstore/plugin_data_catalog.go:100-200 | An install keeps the agreement of listed versions and data shapes if and only if its list agrees |
| CatalogShapes.CommitVersionShapesIff | internal/controlstore/plugin_data_upgrade.go:140-272 | An upgrade or restore keeps that agreement if and only if every version in its list has the shape of the data it will name |
| CatalogShapes.PutShapesIff | internal/controlstore/views.go:428-477 | The same exact condition for a put |
| CatalogShapes.UpdateExternalShapesIff | internal/controlstore/views.go:220-269 | The same exact condition for an external update |
| CatalogShapes.HostListsAreBuiltOn | pkg/host/host.go:3416-3427 | The list the host builds holds the snapshot of the package being replaced and otherwise only listed versions of other packages |
| CatalogShapes.StepKeepsShapes | internal/controlstore/plugin_data_catalog.go:100-416 | Every request that fits, or whose list the host built from a record read earlier, keeps the agreement |
| CatalogShapes.RunKeepsShapes | internal/controlstore/plugin_data_catalog.go:100-416 | In every state of every such run every version an installed plugin lists names data of its own package's shape, and history rows file bindings that were in use |
| CatalogShapes.SharedComesBack | pkg/host/host.go:3204-3300 | A listed version whose data is in use comes back by a put if and only if the packages are accepted and the year has four digits, and the catalog stays sane |
| CatalogShapes.RetainedComesBack | pkg/host/host.go:3204-3300 | A listed version with data of its own comes back by a restore if and only if time, revisions and the two packages allow it; the catalog is sane afterwards if and only if the time is stored as a positive number |
| CatalogShapes.AnyVersionComesBack | pkg/host/host.go:3204-3300 | In every state of every such run any listed version with data can be brought back: what it depends on is time, revisions and packages, never the data |
| HistoryMigration.MigrateRecord | internal/controlstore/plugin_data_upgrade.go:59-126 | The migration of one record succeeds exactly when its whole version list provably shares one dataset, and then binds every version to it |
| HistoryMigration.Migrate | internal/controlstore/plugin_data_upgrade.go:38-57 | All records are rewritten, or none |
| HistoryMigration.MigrationEstablishesInvariant | internal/controlstore/plugin_data_upgrade.go:59-126 | A migrated legacy catalog satisfies the whole invariant, no dangling version included |
| FileGrants.RetentionOrderIsTotal | internal/controlstore/selected_resources.go:87-88 | The eviction order of inactive rows is total |
| FileGrants.EvictionLeavesRoom | internal/controlstore/selected_resources.go:87-92 | Eviction deletes no active row and leaves room for the new one within 256 |
| FileGrants.CreateIsBounded | internal/controlstore/selected_resources.go:77-92 | A created grant leaves at most 128 active and 256 rows in its group and deletes no active one |
| FileGrants.CreatedIsUsable | internal/controlstore/selected_resources.go:133-165 | A created grant is usable at a time if and only if it expires after 1970 and after the stored form of that time |
| FileGrants.RevokedIsUnusable | internal/controlstore/selected_resources.go:167-197 | A revoked grant is never usable; repeating the revocation succeeds and changes nothing if and only if its time was stored as a positive number or it had found the grant revoked, and otherwise reports a bad row |
| Maintenance.CursorNamesSlot | internal/controlstore/plugin_data_catalog.go:849-860 | Splitting a cursor gives back the row it names, for ids without NUL |
| Maintenance.ListPage | internal/controlstore/plugin_data_catalog.go:34-98 | A page holds exactly the first rows behind its cursor, in order, each with its decoded binding, and a next cursor if and only if more rows remain; a malformed cursor is refused |
| Maintenance.VisitAll | internal/controlstore/plugin_data_catalog.go:34-98 | Following cursors from the empty one ends and visits every current and retained generation exactly once, in order, for any page limit |
| JsonNumbers.ValidJSONNumber | internal/jsonvalue/jsonvalue.go:673-713 | Accepts exactly the number grammar of section 6 of RFC 8259 |
| JsonNumbers.LexComplete | internal/jsonvalue/jsonvalue.go:673-713 | Every spelling of the grammar followed by any text that cannot continue a number is read as that number and that text |
| JsonNumbers.LexSound | internal/jsonvalue/jsonvalue.go:673-713 | What is read spells the text that was read |
| SafeMagnitude.BoundedDecimalExponent | internal/jsonvalue/jsonvalue.go:766-783 | Computes the exponent clamped to 32 more than the size limit, whatever its length |
| SafeMagnitude.ClampIsHarmless | internal/jsonvalue/jsonvalue.go:766-783 | Clamping never changes the answer for texts of at most 512 KiB |
| SafeMagnitude.CompareSignificant | internal/jsonvalue/jsonvalue.go:744-763 | Comparing sixteen padded digits decides the comparison with 2^53-1 |
| SafeMagnitude.DecideMagnitude | internal/jsonvalue/jsonvalue.go:736-763 | The digit-count decision is the exact comparison of the scaled significand |
| SafeMagnitude.NumberExceedsSafeMagnitude | internal/jsonvalue/jsonvalue.go:715-764 | For every number of the grammar of at most 512 KiB the answer is whether its exact rational absolute value exceeds 2^53-1 |
| JsonStrings.JsonStringEncodedLength | internal/jsonvalue/jsonvalue.go:597-632 | The one-pass length is the length of the escaped string, or exactly limit+1 when over the limit |
| JsonStrings.QuotedJsonStringEncodedLength | internal/jsonvalue/jsonvalue.go:634-671 | The one-pass length is the length of escaping twice, the outer pass without HTML escapes, or exactly limit+1 |
| JsonStrings.EscapedTwice | internal/jsonvalue/jsonvalue.go:634-671 | What one rune contributes when it is escaped twice |
| JsonStrings.EscapedConcat | internal/jsonvalue/jsonvalue.go:597-632 | Escaping distributes over texts cut at rune boundaries |
| JsonRoundTrip.PieceReads | internal/canonicaljson/canonical.go:124-156 | Either spelling of a rune is read back as that rune, whatever follows |
| JsonRoundTrip.BodyReads | internal/canonicaljson/canonical.go:124-156 | A printed string is read back as the string |
| JsonRoundTrip.PrintedReads | internal/canonicaljson/canonical.go:64-122 | Parsing a printed document followed by any admissible suffix returns the document and that suffix |
| JsonRoundTrip.PrintedDocumentReads | internal/canonicaljson/canonical.go:26-43 | Printing in either style and decoding is the identity on documents |
| JsonRoundTrip.ReadShrinks | internal/canonicaljson/canonical.go:48-62 | The canonical print of what was read is never longer than the text it was read from |
| JsonValues.SortedDocMeans | internal/canonicaljson/canonical.go:94-117 | The document with sorted keys means the value it was made from |
| JsonValues.SortedDocFits | internal/canonicaljson/canonical.go:64-122 | The sorted document keeps to the depth limit and has no key twice |
| JsonValues.SortingKeepsWeight | internal/canonicaljson/canonical.go:94-117 | Decoding and sorting keys changes neither the printed length nor the number of values |
| JsonValues.AscendingIsSorted | internal/canonicaljson/canonical.go:95-99 | There is only one increasing enumeration of a set of keys, so the order keys come out of the map does not matter |
| JsonValues.PermutedWeight | internal/canonicaljson/canonical.go:94-117 | The order of an object's members does not change its size |
| CanonicalJson.SortStrings | internal/canonicaljson/canonical.go:99 | Sorting any list of distinct keys gives the one increasing enumeration |
| CanonicalJson.AppendCanonicalString | internal/canonicaljson/canonical.go:124-156 | Appends the canonical spelling, and fails exactly on invalid UTF-8 |
| CanonicalJson.AppendCanonical | internal/canonicaljson/canonical.go:64-122 | Appends the print of the sorted document exactly when the value has valid strings, only integers and depth at most 64, and fails otherwise |
| CanonicalJson.Consume | internal/canonicaljson/canonical.go:174-228 | Accepts exactly the documents within depth 64 and 100000 values without duplicate keys, counting the values |
| CanonicalJson.CanonicalJSON | internal/canonicaljson/canonical.go:48-62 | Succeeds exactly on the accepted documents and returns the print of their sorted value |
| CanonicalJson.PrintIsValid | internal/canonicaljson/canonical.go:64-156 | Canonical texts are valid UTF-8 |
| CanonicalJson.CanonicalTextNeverGrows | internal/canonicaljson/canonical.go:48-62 | A canonical text is never longer than its document and has as many values |
| CanonicalJson.EveryValueHasText | internal/canonicaljson/canonical.go:48-122 | Every value within the limits has a canonical text, which is accepted, means it and is its own canonical form |
| CanonicalJson.CanonicalizationIsIdempotent | internal/canonicaljson/canonical.go:48-62 | Canonicalizing a canonical text is accepted, changes nothing and keeps the meaning |
| CanonicalJson.CanonicalTextDecidesMeaning | internal/canonicaljson/canonical.go:48-122 | Two accepted documents have the same canonical text if and only if they decode to the same value |
| GoValues.CycleNeverUnfolds | internal/jsonvalue/jsonvalue.go:495-506 | A value that is its own descendant unfolds in no number of levels |
| GoValues.ChainUnfolds | internal/jsonvalue/jsonvalue.go:376-380 | A descendant of a value that unfolds in n levels unfolds in as many fewer as it lies deeper |
| GoValues.LongChain | internal/jsonvalue/jsonvalue.go:376-380 | A value that does not unfold in n levels has a chain of descendants longer than n |
| CloneLimits.ListedBelow | internal/jsonvalue/jsonvalue.go:445-489 | The members of an object weigh the same in any order, and some of them no more than all |
| CanonicalClone.State.AddBytes | internal/jsonvalue/jsonvalue.go:508-514 | Charges exactly the count, or refuses and charges nothing |
| CanonicalClone.State.CloneScalar | internal/jsonvalue/jsonvalue.go:385-410 | Accepts exactly the sound scalars that fit and charges their encoded length |
| CanonicalClone.State.Clone | internal/jsonvalue/jsonvalue.go:376-493 | Terminates on every graph; accepts exactly the values that unfold within the levels left, are sound and fit both budgets, for every map order; charges exactly values and encoded bytes; returns the value or an equal one whose containers are all new |
| CanonicalClone.State.CloneSlice | internal/jsonvalue/jsonvalue.go:411-444 | The same for a slice, with the cycle check |
| CanonicalClone.State.CloneMap | internal/jsonvalue/jsonvalue.go:445-489 | The same for a map, walked in any order |
| CanonicalClone.RevisitNeverUnfolds | internal/jsonvalue/jsonvalue.go:495-506 | The cycle check refuses only values that no depth limit would admit |
| CanonicalClone.ValidateCanonical | internal/jsonvalue/jsonvalue.go:126-132 | Accepts exactly the canonical values: what encoding/json writes for them has at most 512 KiB |
| CanonicalClone.CloneCanonical | internal/jsonvalue/jsonvalue.go:136-143 | Accepts the same values and returns one that unfolds to the same tree in new containers only |
| CanonicalClone.CanonicalIsAcyclic | internal/jsonvalue/jsonvalue.go:376-380 | No accepted value is part of a cycle, and no way down from it has more than 65 values |
| CanonicalClone.RefusedForAReason | internal/jsonvalue/jsonvalue.go:376-493 | A refused value has a chain of more than 65 values, an unsound part, or exceeds a budget |
| ManifestValues.Clone | internal/controlstore/manifest_cache.go:86-139 | The deep copy stores the same tree, and everything it refers to is newly allocated |
| CacheContents.EvictsOldestOnly | internal/controlstore/manifest_cache.go:61-63 | Eviction keeps the longest run of most recently used texts that leaves room: only the oldest go, and no more than needed |
| CacheContents.AfterKeepsBounds | internal/controlstore/manifest_cache.go:54-68 | Any request keeps one text per digest, at most 128 texts and at most 8 MiB |
| CacheContents.RunIsBoundedAndRecent | internal/controlstore/manifest_cache.go:34-70 | After any requests the contents are bounded and ordered by last use |
| ManifestCache.Cache.constructor | internal/controlstore/manifest_cache.go:21-27 | A new cache satisfies the cache invariant and refers to no container |
| ManifestCache.Cache.Remove | internal/controlstore/manifest_cache.go:72-77 | Takes an entry out of map, list and byte count together |
| ManifestCache.Cache.Evict | internal/controlstore/manifest_cache.go:61-63 | The eviction loop ends and leaves exactly the longest prefix of the recency list that fits |
| ManifestCache.Cache.Decode | internal/controlstore/manifest_cache.go:34-70 | Returns what the uncached decode returns, even when digests collide, in new containers disjoint from everything cached; whatever the cache refers to from then on is new as well, so earlier results stay apart from it; map and list agree, the byte counter is the exact sum; a hit moves to the front without decoding |
| ManifestCache.AnyCaller | internal/controlstore/manifest_cache.go:34-84 | For any sequence of requests, with everything handed out so far overwritten arbitrarily between them, every answer is what the uncached decode returns and the cache ends up as if nothing had been overwritten |
| ManifestCache.SameSize | internal/controlstore/manifest_cache.go:54-68 | Map and recency list always have the same size |
| IntervalStore.Store.ReconcileIntervals | internal/controlstore/background_interval.go:37-109 | Either all plans are brought in line with the installed packages or nothing changes; fails exactly on unreadable plans, inconsistent records, changed limits or limits out of range |
| IntervalStore.Store.ReadCandidates | internal/controlstore/background_interval.go:49-79 | Finds exactly the runnable interval records and fails on a record whose columns and JSON disagree |
| IntervalStore.Store.ClaimInterval | internal/controlstore/background_interval.go:192-211 | Wins exactly if the plan read is the stored one, due, unclaimed and still authorized, and then stores the identity |
| IntervalStore.Store.FinishInterval | internal/controlstore/background_interval.go:213-226 | Succeeds exactly while the claim is the stored one, and schedules the next run one interval later |
| IntervalStore.Store.RecoverIntervalClaims | internal/controlstore/background_interval.go:230-250 | Fails exactly at the zero time or on an unreadable plan; otherwise keeps every plan, leaves no claim, dates interrupted runs finished now with an unknown outcome and schedules them one interval later, and leaves unclaimed plans untouched |
| IntervalStore.Store.ValidateIntervalClaim | internal/controlstore/background_interval.go:156-172 | A claim is valid exactly while it is the stored one |
| IntervalRuns.StepKeepsSpacing | internal/controlstore/background_interval.go:192-250 | No operation makes an unclaimed plan due before its interval has passed since every earlier claim |
| IntervalRuns.RunIsSpacedAndFinishesOnce | internal/controlstore/background_interval.go:37-250 | In every run with a clock that does not go back, claims of one plugin are at least the later one's interval apart, across finish, recovery, reset, deletion and reinsertion, and every claim finishes at most once and only after it was won |
| IntervalRuns.ReconciliationMatches | internal/controlstore/background_interval.go:86-107 | After a reconciliation exactly the runnable interval plugins have a plan, each matches its package, a plan that matched is untouched and any other starts one interval from now |
| IntervalRuns.ReconciliationIsIdempotentIff | internal/controlstore/background_interval.go:37-109 | Reconciling again succeeds if and only if every plan the first one wrote has an owner, an instance, a fingerprint, a management revision and a positive next run, and then it changes nothing; the write does not check this |
| IntervalRuns.UnreadablePlanStopsReconciliation | internal/controlstore/background_interval.go:37-109 | A record without a fingerprint is reconciled once and stops every later reconciliation |
| IntervalRuns.ClaimFinishClaim | internal/controlstore/background_interval.go:192-226 | A claim excludes others, can be finished once, and the plan is due again exactly one interval after it was finished |
| IntervalRuns.RecoveryGivesUp | internal/controlstore/background_interval.go:230-250 | A recovery makes every claim unfinishable and leaves unclaimed plans untouched |
| ExecutionStore.Store.PruneTerminal | internal/controlstore/views.go:1100-1150 | Deletes exactly one batch and reports its size |
| ExecutionPruning.AgeIsTotal | internal/controlstore/views.go:1114-1121 | The age order of ended executions is total |
| ExecutionPruning.BatchLeavesTheRest | internal/controlstore/views.go:1112-1121 | After a batch exactly the rest of the prunable rows is prunable: deletions do not renumber survivors into or out of the set |
| ExecutionPruning.BatchMakesProgress | internal/controlstore/views.go:1112-1121 | A batch has the limit's size or all that is left, and is empty only when nothing is prunable |
| ExecutionPruning.BatchesConverge | internal/controlstore/views.go:1100-1150 | For any limit, repeating batches until one is empty deletes exactly what one unlimited prune would |
| ExecutionPruning.PrunedIsWithinLimits | internal/controlstore/views.go:1100-1150 | Afterwards no plugin has more ended rows than may be kept and none of them is too old |
| ExecutionStore.Store.Reconcile | internal/controlstore/views.go:1029-1095 | Ends every execution that cannot have survived a restart, cancellations as canceled, and counts both |
| ExecutionStore.Store.StartInspectedInstall | internal/controlstore/inspected_install.go:121-163 | Idempotent per request, refuses an inspection held by another execution, and reports creation only to the call that inserted the row |
| ExecutionStore.Store.FinishInspectedInstall | internal/controlstore/inspected_install.go:164-212 | Applies only if the row is still running at the cursor that was read, and returns an outcome already terminal unchanged |
| ExecutionInstalls.PruneKeepsInstalls | internal/controlstore/views.go:1117 | Pruning never deletes an install |
| ExecutionInstalls.StepIsSane | internal/controlstore/inspected_install.go:121-212 | Every operation on executions keeps one claim per inspection and moves installs only onward |
| ExecutionInstalls.FirstOutcomeIsFinal | internal/controlstore/inspected_install.go:164-212 | Under any retries and any other operations the first terminal outcome of an install never changes and its row is never deleted |
| ExecutionInstalls.InspectionClaimedOnce | internal/controlstore/inspected_install.go:45-51 | Under any retries at most one start claims an inspection of a user and environment |
| ExecutionInstalls.StartedIsFound | internal/controlstore/inspected_install.go:121-163 | What a start returns is what a read finds, and a retry finds it without creating anything |
| ExecutionInstalls.FinishedIsFound | internal/controlstore/inspected_install.go:164-212 | Finishing what was read ends the install with that outcome, as completed if and only if it committed without a code, and no later finish changes it |
| ExecutionInstalls.ReconcileEndsEverything | internal/controlstore/views.go:1029-1095 | After a reconciliation nothing runs, what had ended is unchanged, and doing it again changes nothing |
| TeardownStore.AddCounts | pkg/sessionscope/sessionscope.go:94-106 | The pointwise sum, or an error exactly if some field would exceed 2^53-1 |
| TeardownStore.Store.BeginSessionControlTeardown | internal/controlstore/views.go:1781-1827 | Begins, resumes with the same identity, or refuses another one, as `Teardown.Begin` says |
| TeardownStore.Store.AccumulateSessionControl | internal/controlstore/views.go:1829-1841 | Adds a free delta while draining, as `Teardown.Accumulate` says |
| TeardownStore.Store.AccumulateSessionControlPhase | internal/controlstore/views.go:1843-1896 | Adds a phase's delta only the first time, as `Teardown.AccumulatePhase` says |
| TeardownStore.Store.TransitionSessionControl | internal/controlstore/views.go:1898-1909 | Moves the state, idempotently for the final ones, as `Teardown.Transition` says |
| TeardownStore.Store.FinalizeSessionControl | internal/controlstore/views.go:1911-1935 | Deletes a complete teardown by its own identity, or changes nothing |
| TeardownRuns.StepIsAccounted | internal/controlstore/views.go:1781-1964 | Every operation keeps stored counts, phases and identity in line with the successful calls since the teardown began |
| TeardownRuns.RunIsAccounted | internal/controlstore/views.go:1781-1964 | For any interleaving and retries, stored counts equal the initial counts plus every free delta plus the first delta of every phase, and operation and proof are those the teardown began with |
| TeardownRuns.IdentityIsFixed | internal/controlstore/views.go:1911-1935 | Operation, proof and initial counts change only by finalizing a complete teardown under its own identity |
| TeardownRuns.CountsChangeOnlyWhileDraining | internal/controlstore/views.go:1829-1896 | Counts change only while a teardown is draining |
| TeardownRuns.StepReadsIff | internal/controlstore/views.go:1781-1935 | A call on readable fences leaves every fence readable if and only if it fails or brings a readable fence, a known phase or a meaningful state; the store writes these unchecked |
| TeardownRuns.UnreadableStays | internal/controlstore/views.go:1937-2017 | A fence that cannot be read is changed by no later call |
| TeardownRuns.RunReadsIff | internal/controlstore/views.go:1781-1964 | After any run every stored fence reads if and only if every call that succeeded fitted when it was made |
| TeardownRuns.UnknownPhaseStopsTeardown | internal/controlstore/views.go:1843-1896 | After one call with an unknown phase the fence can no longer be read, begun again or finalized, whatever is called in between |
| TeardownRuns.BeginAgainResumes | internal/controlstore/views.go:1781-1827 | Beginning again succeeds if and only if the stored fence reads, is not active and has the same identity, and a time that has to be written has a four-digit year; it resumes an unfinished teardown with its counts and leaves a complete one alone |
| TeardownAdapter.Adapter.Get | pkg/sessionscope/controlstore_adapter.go:57-66 | Returns the fence exactly if the session is valid and the fence passes the store's and the adapter's checks |
| TeardownAdapter.Adapter.Begin | pkg/sessionscope/controlstore_adapter.go:88-101 | Refuses an invalid session or operation id; otherwise changes the tables and answers as the store's begin of an empty draining fence, checked again |
| TeardownAdapter.Adapter.Accumulate | pkg/sessionscope/controlstore_adapter.go:103-115 | Refuses invalid counts; otherwise as the store's accumulation, checked again |
| TeardownAdapter.Adapter.AccumulatePhase | pkg/sessionscope/controlstore_adapter.go:117-129 | Refuses an unknown phase or invalid counts; otherwise as the store's phase accumulation, checked again |
| TeardownAdapter.Adapter.Mark | pkg/sessionscope/controlstore_adapter.go:131-161 | As the store's transition, checked again: reading the fence again after a refusal never changes the answer |
| TeardownAdapter.Adapter.Finalize | pkg/sessionscope/controlstore_adapter.go:163-168 | Finalizes exactly if the session is valid and the store does |
| TeardownAdapter.RequestsMakeRuns | pkg/sessionscope/controlstore_adapter.go:88-168 | Each request through the adapter extends a run of the store by the operation it issues, or by none |
| TeardownAdapter.AdapterRunIsKept | pkg/sessionscope/controlstore_adapter.go:88-168 | Whatever is asked through the adapter, every stored fence reads, is never active, and has a valid operation id and a time |
| TeardownAdapter.AdapterAlwaysResumes | pkg/sessionscope/controlstore_adapter.go:88-101 | In every state of every run through the adapter every fence can be read through it, and beginning again succeeds if and only if the identity is the one it began with and a time to be written has a four-digit year |

## Left out

- Permission grants, security policies, automatic-update settings and authorization replacement: they touch none of the rows the data invariant speaks of.
- Data objects and their listing, and `ListBindings`: the same keyset pagination as the maintenance listing over simpler rows.
- Presentation fields of manifests and records: a package is its canonical text with its hashes, and decoding it is a parameter.
- Readiness checks, contexts, scanning and commit errors of the database: an operation here either commits or fails for a reason of its own.
- ControlStore.Store.UpdateExternalPackage: the entry hash, approval and intent checks are one acceptance parameter, because they read rows outside the data catalog.
- VersionSwitching.UpgradeThenRestore: the data store's own revision bound of 2^53-1 and its file checks are not modelled; the bounds stated are those of the control store.
- SetEnableState: one step here, while the source reads and writes in separate statements under the host's lifecycle lock.
- AbortInstall: not a request of the runs, because it deletes the revoke epoch; its exact effect on the epoch is proved separately.
- Error values of failed encodings: they are one error of each store here. The four-digit-year limit is taken in UTC, where the source takes it in the zone a time carries.
- Teardown.Read: returns a zero update time as stored, where the source puts the column's value in its place; creation times of fences and what encoding does to texts that are not valid UTF-8 are not modelled.
- Executions.FinishInstall: returns the terminal time as its column holds it, the source as it was given.
- Intervals: millisecond columns do not wrap here; in the source they do, after 292 million years.
- Default clocks: where the source takes the current time for a zero time, the time is a parameter.
- Trim: treats only the Latin-1 space characters as space.
- FileGrants.Create: the 256-byte bound of key parts is counted in characters, and the payload's JSON validity and size is one parameter.
- IntervalStore: plans are keyed by owner and instance as a pair, where the source joins them with a NUL character.
- Execution events, which follow their execution by cascade, and the ordinary listing and reading of executions.
- Executions.StartInstall: a row that meets both the primary key and the inspection index is taken as a retry of the same request.
- Normalize, the reflective walk over native structures and struct plans in `internal/jsonvalue`: driven by Go reflection.
- Formatting of floating-point numbers: a float is its encoded text and whether it is in range.
- CanonicalJson.SortStrings: an insertion sort stands for the library's sort.
- ManifestValues.Clone: manifests have no unexported struct fields, which the source would copy without cloning; arrays are structs here.
- The command line, the user interface, platform file access and measurement code of the repository.
