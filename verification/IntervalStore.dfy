/** The interval operations of the control store on its record and plan tables. */
module IntervalStore {
  import opened Outcomes
  import opened Intervals

  datatype Candidate = Candidate(key: Key, row: Row, limits: Limits)

  class Store {
    var rows: map<Key, Row>
    var plans: map<Key, Plan>

    constructor ()
      ensures rows == map[] && plans == map[]
    {
      rows, plans := map[], map[];
    }

    /** Reads the enabled interval records; a row whose columns and JSON disagree stops everything. */
    method ReadCandidates() returns (ok: bool, found: seq<Candidate>)
      ensures ok <==> forall k <- rows :: Selected(rows[k]) ==> Consistent(k, rows[k])
      ensures ok ==> forall k <- rows :: Wanted(rows[k]).Some? ==> Candidate(k, rows[k], Wanted(rows[k]).value) in found
      ensures ok ==> forall c <- found :: c.key in rows && c.row == rows[c.key] && Wanted(c.row) == Some(c.limits)
      ensures ok ==> forall i, j :: 0 <= i < j < |found| ==> found[i].key != found[j].key
    {
      found := [];
      var left := rows.Keys;
      while left != {}
        invariant left <= rows.Keys
        invariant forall k <- rows :: k !in left && Selected(rows[k]) ==> Consistent(k, rows[k])
        invariant forall k <- rows :: k !in left && Wanted(rows[k]).Some? ==>
                    Candidate(k, rows[k], Wanted(rows[k]).value) in found
        invariant forall c <- found :: c.key in rows && c.key !in left && c.row == rows[c.key]
                    && Wanted(c.row) == Some(c.limits)
        invariant forall i, j :: 0 <= i < j < |found| ==> found[i].key != found[j].key
        decreases left
      {
        var key :| key in left;
        var row := rows[key];
        if Selected(row) {
          if !Consistent(key, row) { return false, []; }
          var background := row.decoded.value.limits;
          if background.Some? && row.decoded.value.runnable {
            found := found + [Candidate(key, row, background.value)];
          }
        }
        left := left - {key};
      }
      ok := true;
    }

    /** Inserts, resets or keeps the plan of every candidate. */
    method ApplyCandidates(found: seq<Candidate>, now: int) returns (ok: bool, table: map<Key, Plan>)
      requires forall i, j :: 0 <= i < j < |found| ==> found[i].key != found[j].key
      ensures ok <==>
                forall i :: 0 <= i < |found| ==>
                  Reconciled(found[i].key, found[i].row, found[i].limits, plans, now).Success?
      ensures ok ==> forall i :: 0 <= i < |found| ==>
                found[i].key in table
                && table[found[i].key] == Reconciled(found[i].key, found[i].row, found[i].limits, plans, now).value
      ensures ok ==> table.Keys == plans.Keys + set i | 0 <= i < |found| :: found[i].key
    {
      table := plans;
      for i := 0 to |found|
        invariant forall j :: 0 <= j < i ==>
                    Reconciled(found[j].key, found[j].row, found[j].limits, plans, now).Success?
        invariant forall j :: 0 <= j < i ==>
                    found[j].key in table
                    && table[found[j].key] == Reconciled(found[j].key, found[j].row, found[j].limits, plans, now).value
        invariant table.Keys == plans.Keys + set j | 0 <= j < i :: found[j].key
        invariant forall j :: i <= j < |found| && found[j].key in plans ==> table[found[j].key] == plans[found[j].key]
      {
        var c := found[i];
        if c.key in plans && plans[c.key].binding == c.row.binding {
          if plans[c.key].limits != c.limits { return false, plans; }
        } else {
          if !ValidLimits(c.limits) { return false, plans; }
          table := table[c.key := Fresh(c.row.binding, c.limits, now)];
        }
      }
      ok := true;
    }

    /** Deletes the plans that no candidate asked for. */
    method DropOthers(table: map<Key, Plan>, valid: set<Key>) returns (kept: map<Key, Plan>)
      requires plans.Keys <= table.Keys <= plans.Keys + valid
      ensures kept == map k | k in table && k in valid :: table[k]
    {
      kept := table;
      var left := plans.Keys;
      while left != {}
        invariant left <= plans.Keys
        invariant kept == map k | k in table && (k in valid || k in left) :: table[k]
        decreases left
      {
        var key :| key in left;
        if key !in valid { kept := kept - {key}; }
        left := left - {key};
      }
    }

    /** Either every plan is brought in line with the installed packages, or nothing changes. */
    method ReconcileIntervals(now: int) returns (ok: bool)
      modifies this`plans
      ensures ok <==> now != ZERO_TIME && Reconcilable(rows, old(plans), now)
      ensures plans == if ok then Reconcile(rows, old(plans), now) else old(plans)
    {
      hide Reconciled, ValidPlan, Consistent, Wanted;
      if now == ZERO_TIME { return false; }
      var found;
      ok, found := ReadCandidates();
      if !ok || !AllValid(plans) { return false; }
      var table;
      ok, table := ApplyCandidates(found, now);
      if !ok {
        var i :| 0 <= i < |found| && Reconciled(found[i].key, found[i].row, found[i].limits, plans, now).Failure?;
        assert found[i] in found;
        return false;
      }
      var valid := set i | 0 <= i < |found| :: found[i].key;
      var kept := DropOthers(table, valid);
      forall k <- rows | Wanted(rows[k]).Some?
        ensures Reconciled(k, rows[k], Wanted(rows[k]).value, plans, now).Success? && k in valid {
        var i :| 0 <= i < |found| && found[i] == Candidate(k, rows[k], Wanted(rows[k]).value);
      }
      forall k <- valid
        ensures k in rows && Wanted(rows[k]).Some?
                && kept[k] == Reconciled(k, rows[k], Wanted(rows[k]).value, plans, now).value {
        var i :| 0 <= i < |found| && found[i].key == k;
        assert found[i] in found;
      }
      plans := kept;
    }

    /** Commits one durable identity for one due run of the plan the caller read. */
    method ClaimInterval(k: Key, read: Plan, nonce: string, now: int) returns (claimed: Plan, won: bool)
      modifies this`plans
      ensures won <==> now != ZERO_TIME && Claimable(rows, old(plans), k, read, now)
      ensures won ==> claimed == Claimed(read, nonce, now)
      ensures plans == if won then old(plans)[k := Claimed(old(plans)[k], nonce, now)] else old(plans)
    {
      claimed := read;
      if now == ZERO_TIME { return claimed, false; }
      claimed := claimed.(claim := nonce, claimedAt := Milli(now));
      if k !in plans { return claimed, false; }
      var plan := plans[k];
      if plan.binding != read.binding || plan.limits != read.limits || plan.nextRun != read.nextRun {
        return claimed, false;
      }
      if plan.claim != "" || plan.nextRun > Milli(now) { return claimed, false; }
      if k !in rows || rows[k].binding != plan.binding || !rows[k].enabled || rows[k].deleted { return claimed, false; }
      plans := plans[k := plan.(claim := nonce, claimedAt := Milli(now))];
      won := true;
    }

    method FinishInterval(k: Key, held: Plan, now: int, outcome: string) returns (r: Result<bool, Error>)
      modifies this`plans
      ensures r == if held.claim == "" || now == ZERO_TIME then Failure(ClaimRequired)
                   else if Finishable(old(plans), k, held) && outcome !in OUTCOMES then Failure(CheckFailed)
                   else Success(Finishable(old(plans), k, held))
      ensures plans == if r == Success(true) then old(plans)[k := Finished(old(plans)[k], now, outcome)] else old(plans)
    {
      if held.claim == "" || now == ZERO_TIME { return Failure(ClaimRequired); }
      if !Finishable(plans, k, held) { return Success(false); }
      if outcome !in OUTCOMES { return Failure(CheckFailed); }
      plans := plans[k := plans[k].(nextRun := Later(now, held.limits.interval), claim := "", finishedAt := Milli(now),
                                    outcome := outcome)];
      return Success(true);
    }

    /**
     * At startup every interrupted run is given up, never retried: no claim is left, a plan somebody held is due one
     * interval from now with an unknown outcome, and a plan nobody held is untouched.
     */
    method RecoverIntervalClaims(now: int) returns (ok: bool)
      modifies this`plans
      ensures ok <==> now != ZERO_TIME && AllValid(old(plans))
      ensures ok ==> plans.Keys == old(plans).Keys && forall k <- plans ::
                && plans[k].claim == "" && plans[k].binding == old(plans)[k].binding
                && plans[k].limits == old(plans)[k].limits
                && (old(plans)[k].claim == "" ==> plans[k] == old(plans)[k])
                && (old(plans)[k].claim != "" ==> plans[k].nextRun == Milli(now) + plans[k].limits.interval
                                                  && plans[k].finishedAt == Milli(now) && plans[k].outcome == "unknown"
                                                  && plans[k].claimedAt == old(plans)[k].claimedAt)
      ensures plans == if ok then Recovered(old(plans), now) else old(plans)
    {
      hide ValidPlan, Milli;
      if now == ZERO_TIME || !AllValid(plans) { return false; }
      var before := plans;
      var table, left := before, before.Keys;
      while left != {}
        invariant left <= before.Keys && table.Keys == before.Keys
        invariant forall k <- before :: table[k] == if k in left then before[k] else Recovered(before, now)[k]
        decreases left
      {
        var key :| key in left;
        var plan := before[key];
        if plan.claim != "" {
          plan := plan.(nextRun := Milli(now) + plan.limits.interval, claim := "");
          table := table[key := plan.(finishedAt := Milli(now), outcome := "unknown")];
        }
        left := left - {key};
      }
      assert table == Recovered(before, now);
      plans := table;
      ok := true;
    }

    /** A claim is honoured only while it is the stored one. */
    method ValidateIntervalClaim(k: Key, held: Plan) returns (ok: bool)
      ensures ok <==> held.claim != "" && Finishable(plans, k, held)
    {
      if held.claim == "" { return false; }
      ok := k in plans && plans[k].binding == held.binding && plans[k].claim == held.claim
      && plans[k].limits == held.limits;
    }
  }
}
