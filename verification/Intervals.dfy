/** Background interval plans: one scheduling row per plugin, claimed and finished by durable identities. */
module Intervals {
  import opened Outcomes
  import ControlRows

  const MIN_INTERVAL := 1_000
  const MAX_INTERVAL := 86_400_000
  const MAX_RUNTIME := 300_000
  const NANOS_PER_MILLI := 1_000_000

  datatype Error = TimeRequired | ClaimRequired | Incompatible | CheckFailed

  datatype Key = Key(owner: string, instance: string)

  /** The package and authorization a plan was derived from. */
  datatype Binding = Binding(fingerprint: string, management: nat, policy: nat, epoch: nat)

  datatype Limits = Limits(interval: int, runtime: int)

  /** Times are Unix milliseconds; an empty claim means nobody runs the plan. */
  datatype Plan = Plan(binding: Binding, limits: Limits, nextRun: int, claim: string, claimedAt: int, finishedAt: int,
    outcome: string)

  /** A record as stored: its columns, and what its JSON decodes to. */
  datatype Row = Row(binding: Binding, enabled: bool, deleted: bool, interval: bool, decoded: Option<Decoded>)
  datatype Decoded = Decoded(instance: string, binding: Binding, enabled: bool, deleted: bool, limits: Option<Limits>,
    runnable: bool)

  /** The zero value of a Go time, which no operation accepts. */
  const ZERO_TIME := ControlRows.ZERO_TIME

  /** The instant of a time given in nanoseconds, in whole milliseconds. */
  function Milli(now: int): int {
    now / NANOS_PER_MILLI
  }

  /** One interval after a time, in whole milliseconds. */
  function Later(now: int, interval: int): int {
    Milli(now + interval * NANOS_PER_MILLI)
  }

  lemma LaterIsExact(now: int, interval: int)
    ensures Later(now, interval) == Milli(now) + interval
  {
  }

  predicate HexDigit(c: char) {
    '0' <= c <= '9' || 'a' <= c <= 'f' || 'A' <= c <= 'F'
  }

  /** Twenty-four bytes in hexadecimal. */
  predicate ValidClaim(claim: string) {
    |claim| == 48 && forall i :: 0 <= i < |claim| ==> HexDigit(claim[i])
  }

  const OUTCOMES := {"", "success", "failed", "unknown", "blocked", "canceled"}

  predicate ValidLimits(l: Limits) {
    MIN_INTERVAL <= l.interval <= MAX_INTERVAL && 1 <= l.runtime <= MAX_RUNTIME && l.runtime <= l.interval
  }

  predicate ValidPlan(k: Key, p: Plan) {
    && k.owner != "" && k.instance != "" && p.binding.fingerprint != "" && p.binding.management != 0
    && ValidLimits(p.limits) && p.nextRun > 0
    && (p.claim != "" ==> ValidClaim(p.claim) && p.claimedAt != 0)
    && p.outcome in OUTCOMES
  }

  predicate AllValid(plans: map<Key, Plan>) {
    forall k <- plans :: ValidPlan(k, plans[k])
  }

  // ---------------------------------------------------------------------------
  // Reconciling with the installed packages
  // ---------------------------------------------------------------------------

  /** Rows the reconciliation reads at all. */
  predicate Selected(r: Row) {
    r.enabled && !r.deleted && r.interval
  }

  predicate Consistent(k: Key, r: Row) {
    && r.decoded.Some? && r.decoded.value.instance == k.instance && r.decoded.value.binding == r.binding
    && r.decoded.value.enabled && !r.decoded.value.deleted
  }

  /** The limits of a runnable interval plugin. */
  function Wanted(r: Row): Option<Limits> {
    if Selected(r) && r.decoded.Some? && r.decoded.value.runnable then r.decoded.value.limits else None
  }

  function Fresh(b: Binding, l: Limits, now: int): Plan {
    Plan(b, l, Later(now, l.interval), "", 0, 0, "")
  }

  /** What becomes of the plan of one runnable interval plugin. */
  function Reconciled(k: Key, r: Row, l: Limits, plans: map<Key, Plan>, now: int): Result<Plan, Error> {
    if k in plans && plans[k].binding == r.binding then
      if plans[k].limits == l then Success(plans[k]) else Failure(Incompatible)
    else if ValidLimits(l) then Success(Fresh(r.binding, l, now))
    else Failure(CheckFailed)
  }

  predicate Reconcilable(rows: map<Key, Row>, plans: map<Key, Plan>, now: int) {
    && AllValid(plans)
    && (forall k <- rows :: Selected(rows[k]) ==> Consistent(k, rows[k]))
    && (forall k <- rows :: Wanted(rows[k]).Some? ==>
          Reconciled(k, rows[k], Wanted(rows[k]).value, plans, now).Success?)
  }

  function Reconcile(rows: map<Key, Row>, plans: map<Key, Plan>, now: int): map<Key, Plan>
    requires Reconcilable(rows, plans, now)
  {
    map k | k in rows && Wanted(rows[k]).Some? :: Reconciled(k, rows[k], Wanted(rows[k]).value, plans, now).value
  }

  // ---------------------------------------------------------------------------
  // Claims
  // ---------------------------------------------------------------------------

  /** The installed package behind a plan is still the one it was derived from, and enabled. */
  predicate Authorized(rows: map<Key, Row>, k: Key, b: Binding) {
    k in rows && rows[k].binding == b && rows[k].enabled && !rows[k].deleted
  }

  /** The plan a caller read is still the stored one, is due and unclaimed. */
  predicate Claimable(rows: map<Key, Row>, plans: map<Key, Plan>, k: Key, read: Plan, now: int) {
    && k in plans && plans[k].binding == read.binding && plans[k].limits == read.limits
    && plans[k].nextRun == read.nextRun && plans[k].claim == "" && plans[k].nextRun <= Milli(now)
    && Authorized(rows, k, plans[k].binding)
  }

  function Claimed(p: Plan, nonce: string, now: int): Plan {
    p.(claim := nonce, claimedAt := Milli(now))
  }

  /** The claim a caller holds is still the stored one. */
  predicate Finishable(plans: map<Key, Plan>, k: Key, held: Plan) {
    k in plans && plans[k].binding == held.binding && plans[k].limits == held.limits && plans[k].claim == held.claim
  }

  function Finished(p: Plan, now: int, outcome: string): Plan {
    p.(nextRun := Later(now, p.limits.interval), claim := "", finishedAt := Milli(now), outcome := outcome)
  }

  function Recovered(plans: map<Key, Plan>, now: int): map<Key, Plan> {
    map k | k in plans ::
      if plans[k].claim == "" then plans[k]
      else plans[k].(nextRun := Milli(now) + plans[k].limits.interval, claim := "", finishedAt := Milli(now),
                     outcome := "unknown")
  }

  /** Deleting a record deletes its plan. */
  function Cascade(rows: map<Key, Row>, plans: map<Key, Plan>): map<Key, Plan> {
    map k | k in plans && k in rows :: plans[k]
  }
}
