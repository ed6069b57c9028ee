/** The rows of the control database that describe installed plugins and their data. */
module ControlRows {
  import opened Outcomes

  /** A point in time, in nanoseconds since 1970. The zero value of a Go time is in year one. */
  type Time = int

  const ZERO_TIME: Time := -62135596800000000000
  const YEAR_0: Time := -62167219200000000000
  const YEAR_10000: Time := 253402300800000000000
  const MAX_INT64 := 0x7fff_ffff_ffff_ffff
  const MAX_SAFE_INTEGER := 9007199254740991

  /** A time column holds nanoseconds in 64 bits. The conversion does not check the range: it wraps around. */
  function Nanos(t: Time): Time {
    (t + MAX_INT64 + 1) % (2 * MAX_INT64 + 2) - MAX_INT64 - 1
  }

  /** A time reads back as it was stored exactly if it lies between the years 1677 and 2262. */
  lemma NanosAreExact(t: Time)
    ensures -MAX_INT64 - 1 <= Nanos(t) <= MAX_INT64
    ensures Nanos(t) == t <==> -MAX_INT64 - 1 <= t <= MAX_INT64
    ensures Nanos(Nanos(t)) == Nanos(t)
  {
  }

  /** What a nullable time column gives back. */
  function Column(t: Option<Time>): Option<Time> {
    if t.Some? then Some(Nanos(t.value)) else None
  }

  /** Times inside a JSON text are spelled out, which fails beyond four-digit years. */
  predicate Dated(t: Time) {
    YEAR_0 <= t < YEAR_10000
  }

  datatype Error =
    | InvalidArgument
    | BindingConflict
    | BindingRevisionConflict
    | BindingNotFound
    | ShapeMismatch
    | RecordNotFound
    | AuthorizationRevisionConflict
    | ManagementRevisionConflict(expected: nat, actual: nat)
    | RetainedRecoveryConflict
    | Incompatible
    | InvalidRecord
    | ConstraintViolation

  datatype Key = Key(owner: string, instance: string)

  datatype Shape = Shape(publisherID: string, pluginID: string, layout: string)

  /** What the store reads out of a decoded package manifest; a manifest may declare no valid shape. */
  datatype Manifest = Manifest(publisherID: string, pluginID: string, version: string, shape: Option<Shape>)

  /**
   * The library functions the store calls but does not define. They are parameters of the
   * model, so everything below holds for every choice of them.
   */
  datatype Platform = Platform(
    decode: string -> Option<Manifest>,      // exact canonical manifest decoder
    digest: string -> string,                // hexadecimal SHA-256
    hashShape: Shape -> Option<string>,
    acceptable: (string, Package) -> bool,   // manifest validation and security facts, per owner
    identifier: string -> bool)              // recovery identifier pattern

  /** One immutable package, as a record or a version snapshot names it. */
  datatype Package = Package(
    version: string, fingerprint: string, packageHash: string, manifestHash: string, canonical: string)

  /** A former package of an instance, bound to the data generation it last used ("" if none). */
  datatype PackageVersion = PackageVersion(generation: string, pkg: Package, activatedAt: Time)

  datatype EnableState = Enabled | DisabledByUser

  datatype Revisions = Revisions(policy: nat, management: nat, revokeEpoch: nat)

  datatype PluginRecord = PluginRecord(
    owner: string, instance: string, publisherID: string, pluginID: string, pkg: Package,
    enable: EnableState, disabledReason: string, revisions: Revisions, versions: seq<PackageVersion>,
    installedAt: Time, enabledAt: Option<Time>, updatedAt: Time, deletedAt: Option<Time>)

  datatype BindingState = Active | Retained

  datatype Binding = Binding(
    instance: string, generation: string, state: BindingState, revision: nat, shapeHash: string,
    retainedAt: Option<Time>, expiresAt: Option<Time>)

  /** A retained generation together with the exact package that last used it. */
  datatype HistoryRow = HistoryRow(record: PluginRecord, binding: Binding, retainedAt: Time)

  datatype Slot = Slot(key: Key, generation: string)

  // ---------------------------------------------------------------------------
  // Text helpers
  // ---------------------------------------------------------------------------

  predicate IsSpace(c: char) {
    c == ' ' || c == '\t' || c == '\n' || c == '\r' || c == '\U{0B}' || c == '\U{0C}' || c == '\U{85}' || c == '\U{A0}'
  }

  predicate Blank(s: string) {
    forall c | c in s :: IsSpace(c)
  }

  function TrimLeft(s: string): string {
    if s != [] && IsSpace(s[0]) then TrimLeft(s[1..]) else s
  }

  function TrimRight(s: string): string {
    if s != [] && IsSpace(s[|s| - 1]) then TrimRight(s[..|s| - 1]) else s
  }

  function Trim(s: string): string {
    TrimRight(TrimLeft(s))
  }

  lemma {:induction false} TrimRightEnd(s: string)
    ensures TrimRight(s) != "" ==> !IsSpace(TrimRight(s)[|TrimRight(s)| - 1])
  {
    if s != [] && IsSpace(s[|s| - 1]) { TrimRightEnd(s[..|s| - 1]); }
  }

  /** An identifier that is not empty once trimmed passes the blank check of its row. */
  lemma TrimmedIsNotBlank(s: string)
    ensures Trim(s) != "" ==> !Blank(Trim(s))
  {
    TrimRightEnd(TrimLeft(s));
    if Trim(s) != "" { assert Trim(s)[|Trim(s)| - 1] in Trim(s); }
  }

  // ---------------------------------------------------------------------------
  // Row validation
  // ---------------------------------------------------------------------------

  predicate Live(r: PluginRecord) {
    r.deletedAt.None?
  }

  predicate RecordDated(r: PluginRecord) {
    && Dated(r.installedAt) && Dated(r.updatedAt)
    && (r.enabledAt.Some? ==> Dated(r.enabledAt.value)) && (r.deletedAt.Some? ==> Dated(r.deletedAt.value))
  }

  /** A row can be written and read back only if every manifest in it is canonical and every time can be spelled. */
  predicate Readable(p: Platform, r: PluginRecord) {
    && p.decode(r.pkg.canonical).Some? && RecordDated(r)
    && forall v | v in r.versions :: p.decode(v.pkg.canonical).Some? && Dated(v.activatedAt)
  }

  /** The package identity a record carries is the one its canonical manifest states. */
  predicate IdentityValid(p: Platform, r: PluginRecord) {
    var decoded := p.decode(r.pkg.canonical);
    && decoded.Some?
    && r.pkg.manifestHash == "sha256:" + p.digest(r.pkg.canonical)
    && r.pkg.version == decoded.value.version
    && r.pluginID == decoded.value.pluginID
    && r.publisherID == decoded.value.publisherID
  }

  predicate ValidBinding(b: Binding) {
    && !Blank(b.instance) && !Blank(b.generation) && !Blank(b.shapeHash) && b.revision != 0
    && match b.state
       case Active => b.retainedAt.None? && b.expiresAt.None?
       case Retained => b.retainedAt.Some? && (b.expiresAt.Some? ==> b.retainedAt.value < b.expiresAt.value)
  }

  function DeclaredShape(p: Platform, pkg: Package): Option<Shape> {
    var decoded := p.decode(pkg.canonical);
    if decoded.Some? then decoded.value.shape else None
  }

  /** The hash of the shape a package's manifest declares, if it declares a valid one. */
  function DeclaredHash(p: Platform, pkg: Package): Option<string> {
    var shape := DeclaredShape(p, pkg);
    if shape.Some? then p.hashShape(shape.value) else None
  }

  function CheckRecordShape(p: Platform, r: PluginRecord, b: Binding, shape: Shape): (c: Check<Error>)
    ensures c.Pass? ==> DeclaredHash(p, r.pkg) == Some(b.shapeHash)
  {
    var hash, declared := p.hashShape(shape), DeclaredHash(p, r.pkg);
    if hash.None? || declared.None? then
      Fail(InvalidArgument)
    else
      Need(r.publisherID == shape.publisherID && r.pluginID == shape.pluginID
           && hash == declared && b.shapeHash == declared.value, ShapeMismatch)
  }

  predicate HistoryDecodes(p: Platform, slot: Slot, row: HistoryRow) {
    var shape := DeclaredShape(p, row.record.pkg);
    && Readable(p, row.record)
    && IdentityValid(p, row.record)
    && shape.Some?
    && CheckRecordShape(p, row.record, row.binding, shape.value).Pass?
    && ValidBinding(row.binding)
    && row.record.owner == slot.key.owner && row.record.instance == slot.key.instance
    && row.binding.instance == slot.key.instance && row.binding.generation == slot.generation
    && row.retainedAt > 0
  }

  // ---------------------------------------------------------------------------
  // Preparing a record
  // ---------------------------------------------------------------------------

  /**
   * The record that replaces `existing` (or a first record), with its revisions advanced.
   * The version history is the caller's.
   */
  function PreparePut(p: Platform, owner: string, r: PluginRecord, existing: Option<PluginRecord>, now: Time)
    : Result<PluginRecord, Error>
  {
    var revisions := match existing
      case Some(e) => Revisions(e.revisions.policy, e.revisions.management + 1, e.revisions.revokeEpoch + 1)
      case None => Revisions(if r.revisions.policy == 0 then 1 else r.revisions.policy,
                             if r.revisions.management == 0 then 1
                                 else r.revisions.management, r.revisions.revokeEpoch);
    :- Need(r.owner == "" || r.owner == owner, InvalidRecord);
    :- Need(!Blank(r.instance), InvalidRecord);
    :- Need(p.acceptable(owner, r.pkg) && forall v | v in r.versions :: p.acceptable(owner, v.pkg), InvalidRecord);
    Success(r.(owner := owner, updatedAt := now, revisions := revisions,
               installedAt := if existing.Some? then existing.value.installedAt else now))
  }

  // ---------------------------------------------------------------------------
  // Version histories
  // ---------------------------------------------------------------------------

  /** Every version that used one dataset is moved to its replacement. */
  function Rebind(versions: seq<PackageVersion>, previous: string, next: string): seq<PackageVersion>
  {
    seq(|versions|, i requires 0 <= i < |versions| =>
      if versions[i].generation == previous then versions[i].(generation := next) else versions[i])
  }

  /** The snapshots of one package are bound to the generation it used. */
  function BindPackage(versions: seq<PackageVersion>, packageHash: string, generation: string): seq<PackageVersion>
  {
    seq(|versions|, i requires 0 <= i < |versions| =>
      if versions[i].pkg.packageHash == packageHash then versions[i].(generation := generation) else versions[i])
  }

  predicate UsesGeneration(current: PluginRecord, target: Package, generation: string) {
    exists v | v in current.versions ::
      v.pkg.packageHash == target.packageHash && v.pkg.manifestHash == target.manifestHash
      && v.pkg.fingerprint == target.fingerprint && v.generation == generation
  }
}
