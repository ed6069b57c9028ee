/**
 * The migration to the schema with a data history. Earlier releases could only switch between packages of
 * one shape, so the whole version list of an instance shares its one dataset; the migration proves that and
 * writes it down.
 */
module HistoryMigration {
  import opened Outcomes
  import opened ControlRows
  import opened DataCatalog
  import opened CatalogInvariant

  /**
   * The snapshot shares the current package's dataset: unbound so far, same shape, and a package that is what it
   * says.
   */
  predicate SharesDataset(p: Platform, r: PluginRecord, v: PackageVersion) {
    && v.generation == ""
    && DeclaredHash(p, v.pkg).Some? && DeclaredHash(p, v.pkg) == DeclaredHash(p, r.pkg)
    && IdentityValid(p, r.(pkg := v.pkg))
  }

  predicate Migratable(p: Platform, key: Key, r: PluginRecord, b: Option<Binding>) {
    && Readable(p, r)
    && (r.versions != [] ==>
          && r.instance == key.instance && IdentityValid(p, r) && DeclaredHash(p, r.pkg).Some?
          && (b.Some? ==> b.value.generation != "" && DeclaredHash(p, r.pkg) == Some(b.value.shapeHash))
          && forall v <- r.versions :: SharesDataset(p, r, v))
  }

  /** Every version of the instance is bound to its dataset, if it has one. */
  function Migrated(r: PluginRecord, b: Option<Binding>): PluginRecord {
    if b.None? then r
    else r.(versions := seq(|r.versions|,
                            i requires 0 <= i < |r.versions| => r.versions[i].(generation := b.value.generation)))
  }

  function MigratedCatalog(s: Catalog): Catalog {
    s.(records := map key | key in s.records :: Migrated(s.records[key], BindingAt(s, key)))
  }

  method MigrateRecord(p: Platform, key: Key, r: PluginRecord, b: Option<Binding>)
    returns (out: Result<PluginRecord, Error>)
    ensures out.Success? <==> Migratable(p, key, r, b)
    ensures out.Success? ==> out.value == Migrated(r, b)
  {
    if !Readable(p, r) { return Failure(Incompatible); }
    if r.versions == [] {
      assert Migrated(r, b).versions == r.versions;
      return Success(r);
    }
    if r.instance != key.instance || !IdentityValid(p, r) { return Failure(Incompatible); }
    var hash := DeclaredHash(p, r.pkg);
    if hash.None? { return Failure(InvalidArgument); }
    if b.Some? && (b.value.generation == "" || hash != Some(b.value.shapeHash)) { return Failure(Incompatible); }
    var versions := r.versions;
    for index := 0 to |r.versions|
      invariant |versions| == |r.versions|
      invariant forall i :: 0 <= i < index ==> SharesDataset(p, r, r.versions[i])
      invariant forall i :: 0 <= i < index ==> versions[i] == if b.Some?
                  then r.versions[i].(generation := b.value.generation) else r.versions[i]
      invariant forall i :: index <= i < |versions| ==> versions[i] == r.versions[i]
    {
      var v := r.versions[index];
      if !SharesDataset(p, r, v) {
        assert v in r.versions;
        return Failure(Incompatible);
      }
      if b.Some? { versions := versions[index := v.(generation := b.value.generation)]; }
    }
    out := Success(r.(versions := versions));
  }

  /** The migration rewrites all records or, if any of them is not provably of one dataset, none. */
  method Migrate(p: Platform, s: Catalog) returns (out: Result<Catalog, Error>)
    ensures out.Success? <==> forall key <- s.records :: Migratable(p, key, s.records[key], BindingAt(s, key))
    ensures out.Success? ==> out.value == MigratedCatalog(s)
  {
    hide Migratable, Migrated;
    var remaining, updated := s.records.Keys, map[];
    while remaining != {}
      invariant remaining <= s.records.Keys
      invariant forall key <- s.records.Keys - remaining :: Migratable(p, key, s.records[key], BindingAt(s, key))
      invariant updated == map key | key in s.records
                && key !in remaining :: Migrated(s.records[key], BindingAt(s, key))
    {
      var key :| key in remaining;
      var record :- MigrateRecord(p, key, s.records[key], BindingAt(s, key));
      updated := updated[key := record];
      remaining := remaining - {key};
    }
    out := Success(s.(records := updated));
  }

  /** What the earlier releases kept of records and bindings; they had no data history. */
  ghost predicate Legacy(p: Platform, s: Catalog) {
    && s.history == map[] && ForeignKeys(s) && GenerationsUnique(s.bindings, s.history)
    && forall key <- s.records ::
         RecordFits(p, key, s.records[key])
         && (key in s.bindings ==> BindingMatches(p, key, s.records[key], s.bindings[key]))
  }

  /** A migration that succeeds establishes the whole catalog invariant, no dangling version included. */
  lemma MigrationEstablishesInvariant(p: Platform, s: Catalog)
    requires Legacy(p, s)
    requires forall key <- s.records :: Migratable(p, key, s.records[key], BindingAt(s, key))
    ensures Inv(p, MigratedCatalog(s))
  {
    hide GenerationsUnique, HistoryDecodes, RowFits, Migrated, Migratable, RecordFits, BindingMatches;
    var s' := MigratedCatalog(s);
    forall key <- s'.records ensures RowFits(p, key, s'.records[key], BindingAt(s', key), s'.history) {
      MigratedRowFits(p, key, s.records[key], BindingAt(s, key));
      assert BindingAt(s', key) == BindingAt(s, key);
    }
  }

  lemma MigratedRowFits(p: Platform, key: Key, r: PluginRecord, b: Option<Binding>)
    requires RecordFits(p, key, r) && Migratable(p, key, r, b)
    requires b.Some? ==> BindingMatches(p, key, r, b.value)
    ensures RowFits(p, key, Migrated(r, b), b, map[])
  {
    hide ValidBinding, DeclaredHash, IdentityValid;
    var m := Migrated(r, b);
    forall v <- m.versions
      ensures p.decode(v.pkg.canonical).Some? && (v.generation == "" || Held(key, b, map[], v.generation)) {
      var i :| 0 <= i < |m.versions| && m.versions[i] == v;
      assert r.versions[i] in r.versions && SharesDataset(p, r, r.versions[i]);
    }
  }
}
