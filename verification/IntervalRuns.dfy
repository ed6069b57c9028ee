/** Interval claims over whole runs: spacing, and finishing at most once. */
module IntervalRuns {
  import opened Outcomes
  import opened Intervals

  /** What happens to the tables; records may change in any way at any time. */
  datatype Op =
    | Records(rows: map<Key, Row>)
    | Reconciling(now: int)
    | Claiming(k: Key, read: Plan, nonce: string, now: int)
    | Finishing(k: Key, held: Plan, now: int, outcome: string)
    | Recovering(now: int)

  /** Claims won and claims finished, in order. */
  datatype Event =
    | Won(k: Key, nonce: string, at: int, interval: int)
    | Done(k: Key, nonce: string)

  datatype World = World(rows: map<Key, Row>, plans: map<Key, Plan>, log: seq<Event>, clock: int)

  const START := World(map[], map[], [], ZERO_TIME)

  function Time(w: World, op: Op): int {
    if op.Records? then w.clock else op.now
  }

  function Step(w: World, op: Op): World {
    var next := w.(clock := Time(w, op));
    match op
    case Records(rows) => next.(rows := rows, plans := Cascade(rows, w.plans))
    case Reconciling(now) =>
      if now != ZERO_TIME && Reconcilable(w.rows, w.plans, now) then next.(plans := Reconcile(w.rows, w.plans, now))
      else next
    case Claiming(k, read, nonce, now) =>
      if now != ZERO_TIME && Claimable(w.rows, w.plans, k, read, now)
      then next.(plans := w.plans[k := Claimed(w.plans[k], nonce, now)],
                 log := w.log + [Won(k, nonce, Milli(now), w.plans[k].limits.interval)])
      else next
    case Finishing(k, held, now, outcome) =>
      if held.claim != "" && now != ZERO_TIME && outcome in OUTCOMES && Finishable(w.plans, k, held)
      then next.(plans := w.plans[k := Finished(w.plans[k], now, outcome)], log := w.log + [Done(k, held.claim)])
      else next
    case Recovering(now) =>
      if now != ZERO_TIME && AllValid(w.plans) then next.(plans := Recovered(w.plans, now)) else next
  }

  /** The clock does not go back, and claim identities are new. */
  ghost predicate Admissible(w: World, op: Op) {
    && w.clock <= Time(w, op)
    && (op.Claiming? ==> op.nonce != "" && forall i :: 0 <= i < |w.log| && w.log[i].Won? ==> w.log[i].nonce != op.nonce)
  }

  function Run(ops: seq<Op>): World {
    if ops == [] then START else Step(Run(ops[..|ops| - 1]), ops[|ops| - 1])
  }

  ghost predicate AdmissibleRun(ops: seq<Op>) {
    forall i :: 0 <= i < |ops| ==> Admissible(Run(ops[..i]), ops[i])
  }

  // ---------------------------------------------------------------------------
  // Spacing
  // ---------------------------------------------------------------------------

  /** Every claim won so far is in the past. */
  ghost predicate Past(w: World) {
    forall i :: 0 <= i < |w.log| && w.log[i].Won? ==> w.log[i].at <= Milli(w.clock)
  }

  /** A plan nobody holds is not due before its interval has passed since every claim won so far. */
  ghost predicate Rested(log: seq<Event>, k: Key, p: Plan) {
    p.claim == "" ==>
      forall i :: 0 <= i < |log| && log[i].Won? && log[i].k == k ==> log[i].at + p.limits.interval <= p.nextRun
  }

  ghost predicate AllRested(w: World) {
    forall k <- w.plans :: Rested(w.log, k, w.plans[k])
  }

  /** Any two claims of one plugin are at least the interval of the later one apart. */
  ghost predicate Spaced(log: seq<Event>) {
    forall i, j :: 0 <= i < j < |log| && log[i].Won? && log[j].Won? && log[i].k == log[j].k ==>
        log[i].at + log[j].interval <= log[j].at
  }

  lemma MilliMonotone(a: int, b: int)
    requires a <= b
    ensures Milli(a) <= Milli(b)
  {
  }

  /** A plan made or released now rests from now on. */
  lemma RestsFromNow(w: World, k: Key, p: Plan, now: int)
    requires Past(w) && w.clock <= now && p.nextRun == Milli(now) + p.limits.interval
    ensures Rested(w.log, k, p)
  {
    MilliMonotone(w.clock, now);
  }

  lemma StepKeepsSpacing(w: World, op: Op)
    requires Past(w) && AllRested(w) && Spaced(w.log) && Admissible(w, op)
    ensures var v := Step(w, op); Past(v) && AllRested(v) && Spaced(v.log)
  {
    hide Reconcilable, AllValid, ValidPlan, Milli;
    var v := Step(w, op);
    MilliMonotone(w.clock, v.clock);
    match op
    case Records(_) =>
    case Reconciling(now) =>
      forall k <- v.plans ensures Rested(v.log, k, v.plans[k]) { ReconciledRests(w, v, k, now); }
    case Claiming(k, read, nonce, now) =>
      assert Past(v);
      ClaimRests(w, v, op);
    case Finishing(k, held, now, outcome) =>
      forall j <- v.plans ensures Rested(v.log, j, v.plans[j]) {
        if v.plans != w.plans && j == k {
          LaterIsExact(now, w.plans[k].limits.interval);
          RestsFromNow(w, k, v.plans[k], now);
        }
        assert Rested(w.log, j, v.plans[j]);
      }
    case Recovering(now) =>
      forall k <- v.plans ensures Rested(v.log, k, v.plans[k]) {
        if v.plans[k] != w.plans[k] { RestsFromNow(w, k, v.plans[k], now); }
      }
  }

  lemma ReconciledRests(w: World, v: World, k: Key, now: int)
    requires Past(w) && AllRested(w) && w.clock <= now && v == Step(w, Reconciling(now)) && k in v.plans
    ensures Rested(v.log, k, v.plans[k])
  {
    if k in w.plans && v.plans[k] == w.plans[k] {
    } else {
      LaterIsExact(now, v.plans[k].limits.interval);
      RestsFromNow(w, k, v.plans[k], now);
    }
  }

  lemma ClaimRests(w: World, v: World, op: Op)
    requires op.Claiming? && Past(w) && AllRested(w) && Spaced(w.log) && Admissible(w, op) && v == Step(w, op)
    ensures AllRested(v) && Spaced(v.log)
  {
    hide Milli;
    if v.log != w.log {
      var k := op.k;
      assert Rested(w.log, k, w.plans[k]);
      forall j <- v.plans ensures Rested(v.log, j, v.plans[j]) {
        if j != k { assert Rested(w.log, j, w.plans[j]); }
      }
    }
  }

  // ---------------------------------------------------------------------------
  // Finishing once
  // ---------------------------------------------------------------------------

  ghost predicate WonBefore(log: seq<Event>, k: Key, nonce: string, n: nat) {
    exists i :: 0 <= i < n <= |log| && log[i].Won? && log[i].k == k && log[i].nonce == nonce
  }

  ghost predicate Distinct(log: seq<Event>) {
    forall i, j :: 0 <= i < j < |log| && log[i].Won? && log[j].Won? ==> log[i].nonce != log[j].nonce
  }

  ghost predicate Unfinished(log: seq<Event>, nonce: string) {
    forall i :: 0 <= i < |log| && log[i].Done? ==> log[i].nonce != nonce
  }

  /** A claim being held was won for that plugin and is not finished. */
  ghost predicate Held(log: seq<Event>, k: Key, p: Plan) {
    p.claim != "" ==> WonBefore(log, k, p.claim, |log|) && Unfinished(log, p.claim)
  }

  ghost predicate AllHeld(w: World) {
    forall k <- w.plans :: Held(w.log, k, w.plans[k])
  }

  /** Every finish is of a claim won before it, and no claim finishes twice. */
  ghost predicate FinishedOnce(log: seq<Event>) {
    && (forall j :: 0 <= j < |log| && log[j].Done? ==> WonBefore(log, log[j].k, log[j].nonce, j))
    && (forall i, j :: 0 <= i < j < |log| && log[i].Done? && log[j].Done? ==> log[i].nonce != log[j].nonce)
  }

  lemma WonStays(log: seq<Event>, e: Event, k: Key, nonce: string, n: nat)
    requires n <= |log| && WonBefore(log, k, nonce, n)
    ensures WonBefore(log + [e], k, nonce, n) && WonBefore(log + [e], k, nonce, |log| + 1)
  {
    var i :| 0 <= i < n <= |log| && log[i].Won? && log[i].k == k && log[i].nonce == nonce;
    assert (log + [e])[i] == log[i];
  }

  lemma StepKeepsHeld(w: World, op: Op)
    requires AllHeld(w) && Distinct(w.log) && FinishedOnce(w.log) && Admissible(w, op)
    ensures var v := Step(w, op); AllHeld(v) && Distinct(v.log) && FinishedOnce(v.log)
  {
    hide Reconcilable, AllValid, Claimable, Milli, Later, Distinct, FinishedOnce, WonBefore, Unfinished;
    match op
    case Records(_) =>
    case Reconciling(now) => ReconciledIsHeld(w, now);
    case Claiming(k, read, nonce, now) => ClaimIsHeld(w, op);
    case Finishing(k, held, now, outcome) => FinishIsHeld(w, op);
    case Recovering(now) =>
  }

  lemma ReconciledIsHeld(w: World, now: int)
    requires AllHeld(w)
    ensures AllHeld(Step(w, Reconciling(now)))
  {
    hide Milli, Later, WonBefore, Unfinished;
    var v := Step(w, Reconciling(now));
    forall k <- v.plans ensures Held(v.log, k, v.plans[k]) {
      assert v.plans[k].claim == "" || (k in w.plans && v.plans[k] == w.plans[k]);
    }
  }

  lemma ClaimIsHeld(w: World, op: Op)
    requires op.Claiming? && AllHeld(w) && Distinct(w.log) && FinishedOnce(w.log) && Admissible(w, op)
    ensures var v := Step(w, op); AllHeld(v) && Distinct(v.log) && FinishedOnce(v.log)
  {
    hide Milli, AllValid, Reconcilable;
    var v := Step(w, op);
    if v.log != w.log {
      var e := Won(op.k, op.nonce, Milli(op.now), w.plans[op.k].limits.interval);
      assert v.log == w.log + [e];
      assert v.log[|w.log|] == e;
      NonceIsUnfinished(w, op.nonce);
      forall k <- v.plans ensures Held(v.log, k, v.plans[k]) {
        if k != op.k && v.plans[k].claim != "" { WonStays(w.log, e, k, v.plans[k].claim, |w.log|); }
      }
      FinishedOnceStays(w.log, e);
    }
  }

  /** A new identity is not among the finished ones. */
  lemma NonceIsUnfinished(w: World, nonce: string)
    requires FinishedOnce(w.log) && forall i :: 0 <= i < |w.log| && w.log[i].Won? ==> w.log[i].nonce != nonce
    ensures Unfinished(w.log, nonce)
  {
    forall j | 0 <= j < |w.log| && w.log[j].Done? ensures w.log[j].nonce != nonce {
      assert WonBefore(w.log, w.log[j].k, w.log[j].nonce, j);
    }
  }

  lemma FinishedOnceStays(log: seq<Event>, e: Event)
    requires FinishedOnce(log) && (e.Done? ==> WonBefore(log, e.k, e.nonce, |log|) && Unfinished(log, e.nonce))
    ensures FinishedOnce(log + [e])
  {
    var longer := log + [e];
    forall j | 0 <= j < |longer| && longer[j].Done? ensures WonBefore(longer, longer[j].k, longer[j].nonce, j) {
      if j < |log| { WonStays(log, e, log[j].k, log[j].nonce, j); } else { WonStays(log, e, e.k, e.nonce, |log|); }
    }
  }

  lemma FinishIsHeld(w: World, op: Op)
    requires op.Finishing? && AllHeld(w) && Distinct(w.log) && FinishedOnce(w.log)
    ensures var v := Step(w, op); AllHeld(v) && Distinct(v.log) && FinishedOnce(v.log)
  {
    hide Milli, Later, AllValid, Reconcilable, Claimable;
    var v := Step(w, op);
    if v.log != w.log {
      var e := Done(op.k, op.held.claim);
      assert Held(w.log, op.k, w.plans[op.k]);
      FinishedOnceStays(w.log, e);
      forall k <- v.plans ensures Held(v.log, k, v.plans[k]) {
        if k != op.k && v.plans[k].claim != "" {
          assert Held(w.log, k, w.plans[k]);
          WonStays(w.log, e, k, v.plans[k].claim, |w.log|);
          OneOwner(w.log, k, op.k, v.plans[k].claim, e.nonce);
        }
      }
    }
  }

  /** Claims held by different plugins are different. */
  lemma OneOwner(log: seq<Event>, k: Key, l: Key, a: string, b: string)
    requires Distinct(log) && k != l && WonBefore(log, k, a, |log|) && WonBefore(log, l, b, |log|)
    ensures a != b
  {
  }

  // ---------------------------------------------------------------------------
  // Whole runs
  // ---------------------------------------------------------------------------

  /**
   * In every run with a clock that does not go back: claims of one plugin are at least its interval apart, and every
   * claim finishes at most once, however plans are finished, recovered, reset, deleted and inserted again.
   */
  lemma {:induction false} RunIsSpacedAndFinishesOnce(ops: seq<Op>)
    requires AdmissibleRun(ops)
    ensures var w := Run(ops);
            Past(w) && AllRested(w) && Spaced(w.log) && AllHeld(w) && Distinct(w.log) && FinishedOnce(w.log)
  {
    if ops != [] {
      var earlier := ops[..|ops| - 1];
      assert forall i :: 0 <= i < |earlier| ==> earlier[..i] == ops[..i];
      RunIsSpacedAndFinishesOnce(earlier);
      assert ops[..|ops| - 1] == earlier && Admissible(Run(earlier), ops[|ops| - 1]);
      hide Past, AllRested, Spaced, AllHeld, Distinct, FinishedOnce, Step, Admissible;
      StepKeepsSpacing(Run(earlier), ops[|ops| - 1]);
      StepKeepsHeld(Run(earlier), ops[|ops| - 1]);
    }
  }

  // ---------------------------------------------------------------------------
  // Reconciliation
  // ---------------------------------------------------------------------------

  /** A plan agrees with the installed package of its plugin. */
  predicate Matches(r: Row, p: Plan) {
    p.binding == r.binding && Wanted(r) == Some(p.limits)
  }

  /**
   * After a reconciliation exactly the runnable interval plugins have a plan, every plan matches its package, and a
   * plan that matched before is untouched.
   */
  lemma ReconciliationMatches(rows: map<Key, Row>, plans: map<Key, Plan>, now: int)
    requires Reconcilable(rows, plans, now)
    ensures var after := Reconcile(rows, plans, now);
            && (forall k :: k in after <==> k in rows && Wanted(rows[k]).Some?)
            && (forall k <- after :: Matches(rows[k], after[k]))
            && (forall k <- after :: k in plans && Matches(rows[k], plans[k]) ==> after[k] == plans[k])
            && (forall k <- after :: !(k in plans && Matches(rows[k], plans[k])) ==>
                  after[k].claim == "" && after[k].nextRun == Milli(now) + after[k].limits.interval)
  {
    hide AllValid, Consistent;
    var after := Reconcile(rows, plans, now);
    forall k <- after
      ensures !(k in plans && Matches(rows[k], plans[k])) ==>
                after[k].nextRun == Milli(now) + after[k].limits.interval {
      LaterIsExact(now, after[k].limits.interval);
    }
  }

  /** The plan of a runnable interval plugin is reset, not kept. */
  predicate Resets(k: Key, r: Row, plans: map<Key, Plan>) {
    !(k in plans && plans[k].binding == r.binding)
  }

  /**
   * Every plan a reconciliation would write passes the check its next read makes; the write itself does not check it.
   */
  predicate WritesReadable(rows: map<Key, Row>, plans: map<Key, Plan>, now: int) {
    forall k <- rows | Wanted(rows[k]).Some? && Resets(k, rows[k], plans) ::
      && k.owner != "" && k.instance != "" && rows[k].binding.fingerprint != "" && rows[k].binding.management != 0
      && Milli(now) + Wanted(rows[k]).value.interval > 0
  }

  lemma WritesAreValid(rows: map<Key, Row>, plans: map<Key, Plan>, now: int)
    requires Reconcilable(rows, plans, now)
    ensures AllValid(Reconcile(rows, plans, now)) <==> WritesReadable(rows, plans, now)
  {
    hide Consistent, Milli;
    var after := Reconcile(rows, plans, now);
    forall k <- after
      ensures !Resets(k, rows[k], plans) ==> ValidPlan(k, after[k])
      ensures Resets(k, rows[k], plans) ==>
                (ValidPlan(k, after[k]) <==>
                  && k.owner != "" && k.instance != "" && rows[k].binding.fingerprint != ""
                  && rows[k].binding.management != 0
                  && Milli(now) + Wanted(rows[k]).value.interval > 0)
    {
      LaterIsExact(now, after[k].limits.interval);
    }
  }

  /** Reconciling again succeeds exactly if the plans written the first time are readable, and then changes nothing. */
  lemma ReconciliationIsIdempotentIff(rows: map<Key, Row>, plans: map<Key, Plan>, now: int, later: int)
    requires Reconcilable(rows, plans, now)
    ensures var after := Reconcile(rows, plans, now);
            && (Reconcilable(rows, after, later) <==> WritesReadable(rows, plans, now))
            && (Reconcilable(rows, after, later) ==> Reconcile(rows, after, later) == after)
  {
    hide AllValid, Consistent, Milli, Later, WritesReadable;
    ReconciliationMatches(rows, plans, now);
    WritesAreValid(rows, plans, now);
    var after := Reconcile(rows, plans, now);
    forall k <- rows | Wanted(rows[k]).Some?
      ensures Reconciled(k, rows[k], Wanted(rows[k]).value, after, later) == Success(after[k]) {
      assert k in after;
    }
  }

  /** A record without a fingerprint is reconciled once, and stops every later reconciliation. */
  lemma UnreadablePlanStopsReconciliation(now: int, later: int)
    requires Milli(now) > 0
    ensures var binding := Binding("", 1, 1, 1);
            var rows := map[Key("owner", "instance") := Row(binding, true, false, true,
                              Some(Decoded("instance", binding, true, false, Some(Limits(1000, 1)), true)))];
            Reconcilable(rows, map[], now) && !Reconcilable(rows, Reconcile(rows, map[], now), later)
  {
    hide Milli, Later;
    var binding := Binding("", 1, 1, 1);
    var rows := map[Key("owner", "instance") := Row(binding, true, false, true,
                      Some(Decoded("instance", binding, true, false, Some(Limits(1000, 1)), true)))];
    assert Reconcilable(rows, map[], now);
    ReconciliationIsIdempotentIff(rows, map[], now, later);
    assert !WritesReadable(rows, map[], now) by { assert Key("owner", "instance") in rows; }
  }

  // ---------------------------------------------------------------------------
  // One round
  // ---------------------------------------------------------------------------

  /**
   * A claim that is won can be finished, no later claim of the same run can be, and the plan is due again exactly one
   * interval after it was finished.
   */
  lemma ClaimFinishClaim(rows: map<Key, Row>, plans: map<Key, Plan>, k: Key, read: Plan, nonce: string, start: int,
                         end: int, outcome: string, later: int)
    requires Claimable(rows, plans, k, read, start) && nonce != ""
    ensures var held := Claimed(read, nonce, start);
            var claimed := plans[k := Claimed(plans[k], nonce, start)];
            && !Claimable(rows, claimed, k, read, later) && !Claimable(rows, claimed, k, held, later)
            && Finishable(claimed, k, held)
            && var done := claimed[k := Finished(claimed[k], end, outcome)];
            && !Finishable(done, k, held)
            && (Claimable(rows, done, k, done[k], later) <==> Milli(end) + read.limits.interval <= Milli(later))
  {
    hide Milli;
    LaterIsExact(end, read.limits.interval);
  }

  /** A recovery gives up every claim, which then cannot be finished, and leaves plans nobody held untouched. */
  lemma RecoveryGivesUp(plans: map<Key, Plan>, now: int, k: Key)
    requires k in plans
    ensures var after := Recovered(plans, now);
            && after.Keys == plans.Keys && after[k].claim == ""
            && (plans[k].claim == "" ==> after[k] == plans[k])
            && (plans[k].claim != "" ==>
                !Finishable(after, k, plans[k]) && after[k].nextRun == Milli(now) + plans[k].limits.interval)
  {
    hide Milli;
  }
}
