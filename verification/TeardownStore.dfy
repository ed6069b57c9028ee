/** The session-control operations of the store, each one transaction. */
module TeardownStore {
  import opened Outcomes
  import opened ControlRows
  import opened Teardown

  /** Adds field by field and stops at the first sum that is not safe. */
  method AddCounts(counts: Counts, delta: Counts) returns (r: Option<Counts>)
    ensures r == Sum(counts, delta)
  {
    var sum: seq<nat> := [];
    for index := 0 to FIELDS
      invariant |sum| == index
      invariant forall i :: 0 <= i < index ==> sum[i] == counts[i] + delta[i] <= MAX_SAFE_INTEGER
    {
      var current, increase := counts[index], delta[index];
      if increase > MAX_SAFE_INTEGER || current > MAX_SAFE_INTEGER - increase { return None; }
      sum := sum + [current + increase];
    }
    r := Some(sum);
    assert sum == Sum(counts, delta).value;
  }

  class Store {
    var tables: Tables

    constructor ()
      ensures tables == Tables(map[], map[])
    {
      tables := Tables(map[], map[]);
    }

    method BeginSessionControlTeardown(s: Scope, proposed: Fence, maxScopes: int)
      returns (r: Result<Fence, TeardownError>)
      modifies this
      ensures var b := Begin(old(tables), s, proposed, maxScopes);
              if b.Success? then r == Success(b.value.1) && tables == b.value.0
                  else r == Failure(b.error) && tables == old(tables)
    {
      if s !in tables.fences {
        if |tables.fences| >= maxScopes { return Failure(FenceCapacity); }
        if !Dated(proposed.updatedAt) { return Failure(NotEncodable); }
        tables := tables.(fences := tables.fences[s := proposed]);
        return Success(proposed);
      }
      var read := Read(tables, s);
      if read.Failure? { return Failure(read.error); }
      var current := read.value;
      if current.operation != proposed.operation || current.proof != proposed.proof {
        return Failure(IdentityMismatch);
      }
      match current.state
      case Draining => r := Resume(s, current, proposed.updatedAt);
      case Incomplete => r := Resume(s, current, proposed.updatedAt);
      case Complete => r := Success(current);
      case Active => r := Failure(InvalidState);
      case Unknown(_) => r := Failure(InvalidState);
    }

    method Resume(s: Scope, current: Fence, now: Time) returns (r: Result<Fence, TeardownError>)
      modifies this
      ensures r == if Dated(now) then Success(current.(state := Draining, updatedAt := now)) else Failure(NotEncodable)
      ensures tables == if Dated(now) then old(tables).(fences := old(tables).fences[s := r.value]) else old(tables)
    {
      if !Dated(now) { return Failure(NotEncodable); }
      var next := current.(state := Draining, updatedAt := now);
      tables := tables.(fences := tables.fences[s := next]);
      return Success(next);
    }

    method AccumulateSessionControl(s: Scope, delta: Counts, now: Time) returns (r: Result<Fence, TeardownError>)
      modifies this
      ensures var a := Accumulate(old(tables), s, delta, now);
              if a.Success? then r == Success(a.value.1) && tables == a.value.0
                  else r == Failure(a.error) && tables == old(tables)
    {
      var read := Read(tables, s);
      if read.Failure? { return Failure(read.error); }
      var current := read.value;
      if !current.state.Draining? { return Failure(InvalidState); }
      var counts := AddCounts(current.counts, delta);
      if counts.None? { return Failure(InvalidCounts); }
      if !Dated(now) { return Failure(NotEncodable); }
      current := current.(counts := counts.value, updatedAt := now);
      tables := tables.(fences := tables.fences[s := current]);
      return Success(current);
    }

    method AccumulateSessionControlPhase(s: Scope, phase: string, delta: Counts, now: Time)
      returns (r: Result<Fence, TeardownError>)
      modifies this
      ensures var a := AccumulatePhase(old(tables), s, phase, delta, now);
              if a.Success? then r == Success(a.value.1) && tables == a.value.0
                  else r == Failure(a.error) && tables == old(tables)
    {
      var read := Read(tables, s);
      if read.Failure? { return Failure(read.error); }
      var current := read.value;
      if !current.state.Draining? { return Failure(InvalidState); }
      if PhaseKey(s, phase) in tables.phases { return Success(current); }
      var counts := AddCounts(current.counts, delta);
      if counts.None? { return Failure(InvalidCounts); }
      if !Dated(now) { return Failure(NotEncodable); }
      current := current.(counts := counts.value, updatedAt := now);
      tables := Tables(tables.fences[s := current], tables.phases[PhaseKey(s, phase) := delta]);
      return Success(current);
    }

    method TransitionSessionControl(s: Scope, expected: State, next: State, now: Time)
      returns (r: Result<Fence, TeardownError>)
      modifies this
      ensures var a := Transition(old(tables), s, expected, next, now);
              if a.Success? then r == Success(a.value.1) && tables == a.value.0
                  else r == Failure(a.error) && tables == old(tables)
    {
      var read := Read(tables, s);
      if read.Failure? { return Failure(read.error); }
      var current := read.value;
      if !(current.state == next && (next.Incomplete? || next.Complete?)) {
        if current.state != expected { return Failure(InvalidState); }
        current := current.(state := next);
      }
      if !Dated(now) { return Failure(NotEncodable); }
      current := current.(updatedAt := now);
      tables := tables.(fences := tables.fences[s := current]);
      return Success(current);
    }

    method FinalizeSessionControl(s: Scope, operation: string, proof: seq<int>) returns (ok: bool)
      modifies this
      ensures var f := Finalize(old(tables), s, operation, proof);
              ok == f.Success? && tables == if ok then f.value else old(tables)
    {
      var read := Read(tables, s);
      if read.Failure? || !read.value.state.Complete? || read.value.operation != operation
          || read.value.proof != proof {
        return false;
      }
      var phases := map k | k in tables.phases && k.scope != s :: tables.phases[k];
      tables := Tables(tables.fences - {s}, phases);
      ok := true;
    }
  }
}
