/** The execution operations of the control store that loop over rows or read before they write. */
module ExecutionStore {
  import opened Outcomes
  import opened ControlRows
  import opened Executions

  class Store {
    const identify: Identify
    var rows: Table

    constructor (identify: Identify)
      ensures rows == map[] && this.identify == identify
    {
      this.identify := identify;
      rows := map[];
    }

    /** Deletes one batch, oldest first, and reports how many rows went. */
    method PruneTerminal(q: PruneRequest) returns (r: Result<nat, ExecutionError>)
      modifies this
      ensures r == if ValidPrune(q) then Success(|Batch(old(rows), q)|) else Failure(InvalidRequest)
      ensures rows == if ValidPrune(q) then Pruned(old(rows), q) else old(rows)
    {
      hide Batch, ValidPrune;
      if !ValidPrune(q) { return Failure(InvalidRequest); }
      var ids := Batch(rows, q);
      var left := ids;
      var table := rows;
      while left != {}
        invariant left <= ids && table == rows - (ids - left)
        decreases left
      {
        var id :| id in left;
        table := table - {id};
        left := left - {id};
      }
      assert table == rows - ids;
      rows := table;
      return Success(|ids|);
    }

    /** Ends every execution that cannot have survived a restart. */
    method Reconcile(now: Time) returns (canceled: nat, orphaned: nat)
      modifies this
      ensures rows == ReconcileOrphans(old(rows), now)
      ensures canceled == |InStatus(old(rows), CancelRequested)| && orphaned == |InStatus(old(rows), Running)|
    {
      hide Orphan;
      var before := rows;
      var granted, lost := InStatus(before, CancelRequested), InStatus(before, Running);
      var pending := granted + lost;
      var table, left := before, pending;
      while left != {}
        invariant left <= pending && table.Keys == before.Keys
        invariant forall id <- before :: table[id] == if id in pending - left then Orphan(before[id], now)
                    else before[id]
        decreases left
      {
        var id :| id in left;
        EndOf(before[id], now);
        var status, code := Orphaned, PLATFORM_FAILED;
        if before[id].status.CancelRequested? { status, code := Canceled, ""; }
        table := table[id := Ended(before[id], status, code, now)];
        left := left - {id};
      }
      forall id <- before ensures table[id] == Orphan(before[id], now) { EndOf(before[id], now); }
      assert table == ReconcileOrphans(before, now);
      rows := table;
      return |granted|, |lost|;
    }

    /** Starting is idempotent per request; only the call that inserts the row reports it as created. */
    method StartInspectedInstall(owner: Owner, instance: string, install: Install)
      returns (r: Result<(Row, bool), ExecutionError>)
      modifies this
      ensures var s := StartInstall(identify, old(rows), owner, instance, install);
              if s.Success? then r == Success((s.value.1, s.value.2)) && rows == s.value.0
                  else r == Failure(s.error) && rows == old(rows)
    {
      hide GetInstall, Startable, ValidOwner, InspectionTaken;
      if !ValidOwner(owner) { return Failure(NotFound); }
      var id := identify(owner.user, owner.env, install.request);
      if !Startable(owner, instance, install) || id == "" { return Failure(StateConflict); }
      var row := Row(owner, instance, Running, 0, "", false, None, Some(install.(outcome := Unknown)));
      if id !in rows {
        if InspectionTaken(rows, owner.user, owner.env, install.inspection) { return Failure(StateConflict); }
        rows := rows[id := row];
        return Success((row, true));
      }
      var earlier := GetInstall(identify, rows, owner, install.request);
      if earlier.Failure? { return Failure(earlier.error); }
      ReadIsInstall(owner, install.request);
      var known := earlier.value.install.value;
      if known.inspection != install.inspection || known.sha != install.sha || known.automatic != install.automatic {
        return Failure(StateConflict);
      }
      return Success((earlier.value, false));
    }

    lemma ReadIsInstall(owner: Owner, request: string)
      ensures var r := GetInstall(identify, rows, owner, request); r.Success? ==> r.value.install.Some?
    {
    }

    /** The write of a finish: it applies only if the row is still as it was read. */
    method FinishInspectedInstall(id: string, read: Row, outcome: Outcome, code: string, now: Time)
      returns (r: Result<Row, ExecutionError>)
      requires read.install.Some?
      modifies this
      ensures var s := FinishInstall(old(rows), id, read, outcome, code, now);
              if s.Success? then r == Success(s.value.1) && rows == s.value.0
                  else r == Failure(s.error) && rows == old(rows)
    {
      if !read.status.Running? { return Success(read); }
      var current := read.(install := Some(read.install.value.(outcome := outcome)));
      var status := if outcome.Committed? && code == "" then Completed else Failed;
      current := Ended(current, status, code, now);
      if id !in rows || !rows[id].status.Running? || rows[id].cursor != current.cursor - 1 {
        return Failure(RevisionConflict);
      }
      rows := rows[id := rows[id].(status := status, cursor := current.cursor, code := code,
                                   terminalAt := Some(Nanos(now)),
                                   install := current.install)];
      return Success(current);
    }
  }

  lemma EndOf(r: Row, now: Time)
    ensures r.status.CancelRequested? ==> Orphan(r, now) == Ended(r, Canceled, "", now)
    ensures r.status.Running? ==> Orphan(r, now) == Ended(r, Orphaned, PLATFORM_FAILED, now)
    ensures Terminal(r.status) ==> Orphan(r, now) == r
    ensures Terminal(r.status) || r.status.CancelRequested? || r.status.Running?
  {
  }
}
