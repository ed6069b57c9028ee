/** File grants: rows that stop being usable when the plugin's revoke epoch or package moves on. */
module FileGrants {
  import opened Outcomes
  import opened ControlRows
  import opened DataCatalog
  import opened Ordering

  const ACTIVE_LIMIT := 128
  const RETAINED_LIMIT := 256

  datatype GrantError = StateConflict | RevisionConflict | GrantNotFound | GrantLimit | DuplicateGrant | BadGrant

  predicate ValidPart(s: string) {
    s != "" && Trim(s) == s && |s| <= 256
  }

  predicate ValidKey(k: ResourceKey) {
    ValidPart(k.owner) && ValidPart(k.user) && ValidPart(k.instance) && ValidPart(k.resource)
  }

  /** Rows of one user's grants to one plugin. */
  function Group(resources: map<ResourceKey, FileResource>, k: ResourceKey): set<ResourceKey> {
    set j | j in resources && j.owner == k.owner && j.user == k.user && j.instance == k.instance
  }

  predicate ActiveGrant(r: FileResource, now: Time, fingerprint: string, epoch: nat) {
    r.revokedAt.None? && r.expiresAt > now && r.fingerprint == fingerprint && r.revokeEpoch == epoch
  }

  function ActiveIn(resources: map<ResourceKey, FileResource>, k: ResourceKey, now: Time, fingerprint: string,
                    epoch: nat): set<ResourceKey> {
    set j | j in Group(resources, k) && ActiveGrant(resources[j], now, fingerprint, epoch)
  }

  function Stamp(r: FileResource): Time {
    if r.revokedAt.Some? then r.revokedAt.value else r.expiresAt
  }

  /** Inactive rows are kept newest first, ties by resource id. */
  predicate KeptBefore(resources: map<ResourceKey, FileResource>, a: ResourceKey, b: ResourceKey) {
    a in resources && b in resources
    && (Stamp(resources[a]) > Stamp(resources[b])
        || (Stamp(resources[a]) == Stamp(resources[b]) && StringLess(a.resource, b.resource)))
  }

  function RetentionOrder(resources: map<ResourceKey, FileResource>): (ResourceKey, ResourceKey) -> bool {
    (a, b) => KeptBefore(resources, a, b)
  }

  /** The rows the retention limit deletes before a new grant is inserted. */
  function Evicted(resources: map<ResourceKey, FileResource>, k: ResourceKey,
                   active: set<ResourceKey>): set<ResourceKey> {
    var inactive := Group(resources, k) - active;
    inactive - FirstRanked(RetentionOrder(resources), inactive, RETAINED_LIMIT - |active| - 1)
  }

  function Create(s: Catalog, k: ResourceKey, r: FileResource, payloadValid: bool, expected: Revisions, now: Time)
    : Result<Catalog, GrantError>
  {
    var plugin := k.Plugin();
    :- Need(ValidKey(k) && r.fingerprint != "" && r.revision == 1 && r.revokeEpoch <= MAX_INT64 && r.revokedAt.None?
            && now != ZERO_TIME && r.expiresAt > Nanos(now) && payloadValid, StateConflict);
    :- Need(plugin in s.records && Live(s.records[plugin]), GrantNotFound);
    var record := s.records[plugin];
    :- Need(record.revisions == expected && record.pkg.fingerprint == r.fingerprint
            && record.revisions.revokeEpoch == r.revokeEpoch, RevisionConflict);
    :- Need(record.enable.Enabled?, StateConflict);
    var active := ActiveIn(s.resources, k, Nanos(now), r.fingerprint, r.revokeEpoch);
    :- Need(|active| < ACTIVE_LIMIT, GrantLimit);
    var remaining := s.resources - Evicted(s.resources, k, active);
    :- Need(k !in remaining, DuplicateGrant);
    Success(s.(resources := remaining[k := r]))
  }

  /** What every read demands of a row; times before 1970 do not pass. */
  predicate ValidGrant(r: FileResource) {
    && 0 < r.revision <= MAX_INT64 && r.revokeEpoch <= MAX_INT64 && r.fingerprint != ""
    && r.expiresAt > 0 && (r.revokedAt.Some? ==> r.revokedAt.value > 0)
  }

  function ReadGrant(s: Catalog, k: ResourceKey): Result<FileResource, GrantError> {
    if !ValidKey(k) || k !in s.resources then Failure(GrantNotFound)
    else if !ValidGrant(s.resources[k]) then Failure(BadGrant)
    else Success(s.resources[k])
  }

  /** A grant that is already revoked at the revision this revocation would give it is left as it is. */
  function Revoke(s: Catalog, k: ResourceKey, expected: nat, now: Time): Result<Catalog, GrantError> {
    var read := ReadGrant(s, k);
    :- Need(0 < expected < MAX_INT64 && now != ZERO_TIME, RevisionConflict);
    var row :- read;
    if row.revokedAt.Some? && row.revision == expected + 1 then
      Success(s)
    else
      :- Need(row.revision == expected && row.revokedAt.None?, RevisionConflict);
      Success(s.(resources := s.resources[k := row.(revokedAt := Some(Nanos(now)), revision := row.revision + 1)]))
  }

  /** What the guarded file operation is allowed to run on. */
  predicate Usable(s: Catalog, k: ResourceKey, now: Time) {
    && ReadGrant(s, k).Success?
    && s.resources[k].revokedAt.None? && s.resources[k].expiresAt > Nanos(now)
    && k.Plugin() in s.records && Live(s.records[k.Plugin()])
    && s.records[k.Plugin()].pkg.fingerprint == s.resources[k].fingerprint
    && s.records[k.Plugin()].revisions.revokeEpoch == s.resources[k].revokeEpoch
    && s.records[k.Plugin()].enable.Enabled?
  }

  // ---------------------------------------------------------------------------
  // Bounded groups
  // ---------------------------------------------------------------------------

  ghost predicate Bounded(s: Catalog) {
    forall k <- s.resources :: |Group(s.resources, k)| <= RETAINED_LIMIT
  }

  lemma RetentionOrderIsTotal(resources: map<ResourceKey, FileResource>, k: ResourceKey, members: set<ResourceKey>)
    requires members <= Group(resources, k)
    ensures StrictTotal(RetentionOrder(resources), members)
  {
    var less := RetentionOrder(resources);
    forall x <- members ensures !less(x, x) { LexIrreflexive(CharCode, x.resource); }
    forall x <- members, y <- members, z <- members | less(x, y) && less(y, z) ensures less(x, z) {
      if Stamp(resources[x]) == Stamp(resources[y]) == Stamp(resources[z]) {
        LexTransitive(CharCode, x.resource, y.resource, z.resource);
      }
    }
    forall x <- members, y <- members ensures x == y || less(x, y) || less(y, x) {
      LexTotal(CharCode, x.resource, y.resource);
    }
  }

  /** What is left of a group once its surplus inactive rows are deleted. */
  lemma EvictionLeavesRoom(resources: map<ResourceKey, FileResource>, k: ResourceKey, active: set<ResourceKey>)
    requires active <= Group(resources, k) && |active| < ACTIVE_LIMIT
    ensures var remaining := resources - Evicted(resources, k, active);
            active <= Group(remaining, k) && |Group(remaining, k)| < RETAINED_LIMIT
  {
    hide KeptBefore, RetentionOrder;
    var inactive := Group(resources, k) - active;
    var n := RETAINED_LIMIT - |active| - 1;
    var kept := FirstRanked(RetentionOrder(resources), inactive, n);
    RetentionOrderIsTotal(resources, k, inactive);
    FirstRankedSize(RetentionOrder(resources), inactive, n);
    assert Group(resources - Evicted(resources, k, active), k) == active + kept;
  }

  /** Creating a grant leaves its group with at most the retained number of rows, and no active row is deleted. */
  lemma CreateIsBounded(s: Catalog, k: ResourceKey, r: FileResource, payloadValid: bool, expected: Revisions, now: Time)
    requires Create(s, k, r, payloadValid, expected, now).Success?
    ensures var s' := Create(s, k, r, payloadValid, expected, now).value;
            && |Group(s'.resources, k)| <= RETAINED_LIMIT
            && ActiveIn(s'.resources, k, Nanos(now), r.fingerprint, r.revokeEpoch)
               == ActiveIn(s.resources, k, Nanos(now), r.fingerprint, r.revokeEpoch) + {k}
            && |ActiveIn(s'.resources, k, Nanos(now), r.fingerprint, r.revokeEpoch)| <= ACTIVE_LIMIT
            && (forall j <- s.resources :: j !in Group(s.resources, k) ==>
                  j in s'.resources && s'.resources[j] == s.resources[j])
            && (forall j <- s'.resources :: j == k || (j in s.resources && s'.resources[j] == s.resources[j]))
  {
    hide ValidKey, FirstRanked, RetentionOrder, Nanos, Dated;
    var s' := Create(s, k, r, payloadValid, expected, now).value;
    var active := ActiveIn(s.resources, k, Nanos(now), r.fingerprint, r.revokeEpoch);
    var remaining := s.resources - Evicted(s.resources, k, active);
    EvictionLeavesRoom(s.resources, k, active);
    NewIsActive(s.resources, remaining, k, r, Nanos(now));
  }

  /** Of the rows that remain the active ones are those that were, and the new one. */
  lemma NewIsActive(resources: map<ResourceKey, FileResource>, remaining: map<ResourceKey, FileResource>,
                    k: ResourceKey, r: FileResource, stamp: Time)
    requires forall j <- remaining :: j in resources && remaining[j] == resources[j]
    requires ActiveIn(resources, k, stamp, r.fingerprint, r.revokeEpoch) <= remaining.Keys
    requires k !in remaining && r.revokedAt.None? && r.expiresAt > stamp
    ensures Group(remaining[k := r], k) == Group(remaining, k) + {k}
    ensures ActiveIn(remaining[k := r], k, stamp, r.fingerprint, r.revokeEpoch)
            == ActiveIn(resources, k, stamp, r.fingerprint, r.revokeEpoch) + {k}
  {
  }

  lemma CreateKeepsBounded(s: Catalog, k: ResourceKey, r: FileResource, payloadValid: bool, expected: Revisions,
                           now: Time)
    requires Bounded(s)
    ensures var c := Create(s, k, r, payloadValid, expected, now); c.Success? ==> Bounded(c.value)
  {
    hide Create, ActiveIn;
    var c := Create(s, k, r, payloadValid, expected, now);
    if c.Success? {
      CreateIsBounded(s, k, r, payloadValid, expected, now);
      forall j <- c.value.resources ensures |Group(c.value.resources, j)| <= RETAINED_LIMIT {
        if j in Group(c.value.resources, k) {
          assert Group(c.value.resources, j) == Group(c.value.resources, k);
        } else {
          assert Group(c.value.resources, j) == Group(s.resources, j);
        }
      }
    }
  }

  /** Any change that only removes or rewrites rows keeps every group bounded. */
  lemma FewerRowsKeepBounded(s: Catalog, s': Catalog)
    requires Bounded(s) && s'.resources.Keys <= s.resources.Keys
    ensures Bounded(s')
  {
    forall k <- s'.resources ensures |Group(s'.resources, k)| <= RETAINED_LIMIT {
      assert Group(s'.resources, k) <= Group(s.resources, k);
      CardinalityMonotone(Group(s'.resources, k), Group(s.resources, k));
    }
  }

  // ---------------------------------------------------------------------------
  // The life of a grant
  // ---------------------------------------------------------------------------

  /**
   * A created grant is usable exactly while the stored form of the clock lies before its expiry, if it expires after
   * 1970; otherwise it is never usable, although its creation only compared its expiry with that clock.
   */
  lemma CreatedIsUsable(s: Catalog, k: ResourceKey, r: FileResource, payloadValid: bool, expected: Revisions, now: Time,
                        later: Time)
    requires Create(s, k, r, payloadValid, expected, now).Success?
    ensures var t := Create(s, k, r, payloadValid, expected, now).value;
            && (Usable(t, k, now) <==> r.expiresAt > 0)
            && (Usable(t, k, later) <==> r.expiresAt > 0 && Nanos(later) < r.expiresAt)
  {
    hide Evicted, ActiveIn, ValidKey, Nanos;
  }

  /**
   * A revoked grant is never usable. Revoking it again with the same expectation changes nothing, exactly if the first
   * revocation was stored with a positive time or had itself found the grant revoked.
   */
  lemma RevokedIsUnusable(s: Catalog, k: ResourceKey, expected: nat, now: Time, again: Time, later: Time)
    requires Revoke(s, k, expected, now).Success?
    ensures var t := Revoke(s, k, expected, now).value;
            && !Usable(t, k, later)
            && (again != ZERO_TIME ==>
                  (Revoke(t, k, expected, again) == Success(t) <==> s.resources[k].revokedAt.Some? || Nanos(now) > 0)
                  && (Revoke(t, k, expected, again) != Success(t) ==>
                      Revoke(t, k, expected, again) == Failure(BadGrant)))
  {
    hide ValidKey, Nanos;
  }
}
