/** Exactly-once accounting of session teardowns over whole runs. */
module TeardownRuns {
  import opened Outcomes
  import opened ControlRows
  import opened Teardown

  datatype Op =
    | Beginning(s: Scope, proposed: Fence, maxScopes: int)
    | Accumulating(s: Scope, delta: Counts, now: Time)
    | AccumulatingPhase(s: Scope, phase: string, delta: Counts, now: Time)
    | Transitioning(s: Scope, expected: State, next: State, now: Time)
    | Finalizing(s: Scope, operation: string, proof: seq<int>)

  /** A call that succeeded: a free delta, or a phase with what that call reported. */
  datatype Call = Free(delta: Counts) | Phase(phase: string, delta: Counts)

  /** What happened to one session since its teardown began. */
  datatype Log = Log(initial: Counts, operation: string, proof: seq<int>, calls: seq<Call>)

  datatype World = World(tables: Tables, logs: map<Scope, Log>)

  const START := World(Tables(map[], map[]), map[])

  function Recorded(w: World, s: Scope, call: Call): World {
    if s in w.logs then w.(logs := w.logs[s := w.logs[s].(calls := w.logs[s].calls + [call])]) else w
  }

  function Step(w: World, op: Op): World {
    match op
    case Beginning(s, proposed, maxScopes) =>
      var r := Begin(w.tables, s, proposed, maxScopes);
      if r.Failure? then w
      else if s in w.tables.fences then w.(tables := r.value.0)
      else World(r.value.0, w.logs[s := Log(proposed.counts, proposed.operation, proposed.proof, [])])
    case Accumulating(s, delta, now) =>
      var r := Accumulate(w.tables, s, delta, now);
      if r.Failure? then w else Recorded(w.(tables := r.value.0), s, Free(delta))
    case AccumulatingPhase(s, phase, delta, now) =>
      var r := AccumulatePhase(w.tables, s, phase, delta, now);
      if r.Failure? then w else Recorded(w.(tables := r.value.0), s, Phase(phase, delta))
    case Transitioning(s, expected, next, now) =>
      var r := Transition(w.tables, s, expected, next, now);
      if r.Failure? then w else w.(tables := r.value.0)
    case Finalizing(s, operation, proof) =>
      var r := Finalize(w.tables, s, operation, proof);
      if r.Failure? then w else World(r.value, w.logs - {s})
  }

  function Run(ops: seq<Op>): World {
    if ops == [] then START else Step(Run(ops[..|ops| - 1]), ops[|ops| - 1])
  }

  // ---------------------------------------------------------------------------
  // What the counts should be
  // ---------------------------------------------------------------------------

  predicate Named(calls: seq<Call>, phase: string) {
    exists i :: 0 <= i < |calls| && calls[i].Phase? && calls[i].phase == phase
  }

  /** Free calls count every time, a phase only the first time it is named. */
  predicate Counted(calls: seq<Call>, i: nat)
    requires i < |calls|
  {
    calls[i].Free? || !Named(calls[..i], calls[i].phase)
  }

  /** The sum of one field over the calls that count. */
  function Owed(calls: seq<Call>, field: nat): nat
    requires field < FIELDS
  {
    if calls == [] then 0
    else
      var n := |calls| - 1;
      Owed(calls[..n], field) + if Counted(calls, n) then calls[n].delta[field] else 0
  }

  ghost predicate Balanced(f: Fence, l: Log) {
    && f.operation == l.operation && f.proof == l.proof
    && forall i :: 0 <= i < FIELDS ==> f.counts[i] == l.initial[i] + Owed(l.calls, i)
  }

  ghost predicate PhasesMatch(phases: map<PhaseKey, Counts>, logs: map<Scope, Log>) {
    && (forall k <- phases :: k.scope in logs && Named(logs[k.scope].calls, k.phase))
    && (forall s <- logs ::
          forall i :: 0 <= i < |logs[s].calls| && logs[s].calls[i].Phase? ==>
            PhaseKey(s, logs[s].calls[i].phase) in phases)
  }

  /** Every stored fence agrees with what happened since its teardown began. */
  ghost predicate Accounted(w: World) {
    && w.tables.fences.Keys == w.logs.Keys
    && (forall s <- w.logs :: Balanced(w.tables.fences[s], w.logs[s]))
    && PhasesMatch(w.tables.phases, w.logs)
  }

  // ---------------------------------------------------------------------------
  // Steps
  // ---------------------------------------------------------------------------

  lemma OwedNext(calls: seq<Call>, call: Call, field: nat)
    requires field < FIELDS
    ensures Owed(calls + [call], field) == Owed(calls, field) + if call.Free? || !Named(calls, call.phase)
            then call.delta[field] else 0
  {
    var longer := calls + [call];
    assert longer[..|calls|] == calls && longer[|calls|] == call;
  }

  /** A recorded call that was added to the fence keeps it balanced. */
  lemma BalancedNext(f: Fence, g: Fence, l: Log, call: Call)
    requires Balanced(f, l) && g.operation == f.operation && g.proof == f.proof
    requires if call.Free? || !Named(l.calls, call.phase) then Sum(f.counts, call.delta) == Some(g.counts)
             else g.counts == f.counts
    ensures Balanced(g, l.(calls := l.calls + [call]))
  {
    hide Owed;
    forall i | 0 <= i < FIELDS ensures g.counts[i] == l.initial[i] + Owed(l.calls + [call], i) {
      OwedNext(l.calls, call, i);
    }
  }

  lemma PhasesNext(phases: map<PhaseKey, Counts>, logs: map<Scope, Log>, s: Scope, call: Call,
                   more: map<PhaseKey, Counts>)
    requires PhasesMatch(phases, logs) && s in logs
    requires more.Keys == if call.Free? then phases.Keys else phases.Keys + {PhaseKey(s, call.phase)}
    ensures PhasesMatch(more, logs[s := logs[s].(calls := logs[s].calls + [call])])
  {
    var calls := logs[s].calls;
    var next := logs[s := logs[s].(calls := calls + [call])];
    forall k <- more ensures k.scope in next && Named(next[k.scope].calls, k.phase) {
      if k.scope == s {
        var longer := calls + [call];
        if k in phases {
          var i :| 0 <= i < |calls| && calls[i].Phase? && calls[i].phase == k.phase;
          assert longer[i] == calls[i];
        } else {
          assert longer[|calls|] == call;
        }
      }
    }
  }

  lemma PhaseKnown(w: World, s: Scope, phase: string)
    requires Accounted(w) && s in w.logs
    ensures PhaseKey(s, phase) in w.tables.phases <==> Named(w.logs[s].calls, phase)
  {
    if Named(w.logs[s].calls, phase) {
      var i :| 0 <= i < |w.logs[s].calls| && w.logs[s].calls[i].Phase? && w.logs[s].calls[i].phase == phase;
    }
  }

  lemma StepIsAccounted(w: World, op: Op)
    requires Accounted(w)
    ensures Accounted(Step(w, op))
  {
    hide Read, Sum, Owed, Named;
    match op
    case Beginning(s, proposed, maxScopes) => BeginIsAccounted(w, op);
    case Accumulating(s, delta, now) => FreeIsAccounted(w, op);
    case AccumulatingPhase(s, phase, delta, now) => PhaseIsAccounted(w, op);
    case Transitioning(s, expected, next, now) => TransitionIsAccounted(w, op);
    case Finalizing(s, operation, proof) => FinalizeIsAccounted(w, op);
  }

  lemma ReadIsStored(t: Tables, s: Scope)
    ensures Read(t, s).Success? ==> s in t.fences && Read(t, s).value == t.fences[s]
  {
  }

  lemma TransitionIsAccounted(w: World, op: Op)
    requires Accounted(w) && op.Transitioning?
    ensures Accounted(Step(w, op))
  {
    hide Read, Owed, Named;
    ReadIsStored(w.tables, op.s);
  }

  lemma FreeIsAccounted(w: World, op: Op)
    requires Accounted(w) && op.Accumulating?
    ensures Accounted(Step(w, op))
  {
    hide Read, Owed, Named, PhasesMatch, Balanced, Sum;
    ReadIsStored(w.tables, op.s);
    var v := Step(w, op);
    if v != w {
      BalancedNext(w.tables.fences[op.s], v.tables.fences[op.s], w.logs[op.s], Free(op.delta));
      PhasesNext(w.tables.phases, w.logs, op.s, Free(op.delta), v.tables.phases);
    }
  }

  lemma PhaseIsAccounted(w: World, op: Op)
    requires Accounted(w) && op.AccumulatingPhase?
    ensures Accounted(Step(w, op))
  {
    hide Read, Owed, Named, PhasesMatch, Balanced, Sum;
    ReadIsStored(w.tables, op.s);
    if AccumulatePhase(w.tables, op.s, op.phase, op.delta, op.now).Success? {
      var v, call := Step(w, op), Phase(op.phase, op.delta);
      PhaseKnown(w, op.s, op.phase);
      BalancedNext(w.tables.fences[op.s], v.tables.fences[op.s], w.logs[op.s], call);
      assert v.tables.phases.Keys == w.tables.phases.Keys + {PhaseKey(op.s, op.phase)};
      PhasesNext(w.tables.phases, w.logs, op.s, call, v.tables.phases);
    }
  }

  lemma BeginIsAccounted(w: World, op: Op)
    requires Accounted(w) && op.Beginning?
    ensures Accounted(Step(w, op))
  {
    hide Read;
    ReadIsStored(w.tables, op.s);
    var v := Step(w, op);
    if op.s !in w.tables.fences && v != w { assert Balanced(v.tables.fences[op.s], v.logs[op.s]); }
  }

  lemma FinalizeIsAccounted(w: World, op: Op)
    requires Accounted(w) && op.Finalizing?
    ensures Accounted(Step(w, op))
  {
    hide Read, Owed, Named;
    ReadIsStored(w.tables, op.s);
  }

  // ---------------------------------------------------------------------------
  // Whole runs
  // ---------------------------------------------------------------------------

  /**
   * For any interleaving and any retries: stored counts are the initial counts, plus every free delta, plus the first
   * delta of every phase; operation and proof are those the teardown began with.
   */
  lemma {:induction false} RunIsAccounted(ops: seq<Op>)
    ensures Accounted(Run(ops))
  {
    if ops != [] {
      hide Accounted, Step;
      RunIsAccounted(ops[..|ops| - 1]);
      StepIsAccounted(Run(ops[..|ops| - 1]), ops[|ops| - 1]);
    } else {
      assert Run(ops) == START;
    }
  }

  /** The identity and the initial counts of a teardown change only by finalizing it. */
  lemma IdentityIsFixed(w: World, op: Op, s: Scope)
    requires Accounted(w) && s in w.logs
    ensures var v := Step(w, op);
            if s in v.logs then v.logs[s].(calls := []) == w.logs[s].(calls := []) && w.logs[s].calls <= v.logs[s].calls
            else op.Finalizing? && op.s == s && w.tables.fences[s].state.Complete?
                 && op.operation == w.logs[s].operation && op.proof == w.logs[s].proof
  {
    hide Owed, Named;
  }

  /** Counts change only while a teardown is draining. */
  lemma CountsChangeOnlyWhileDraining(w: World, op: Op, s: Scope)
    requires s in w.tables.fences && !w.tables.fences[s].state.Draining?
    ensures var v := Step(w, op); s in v.tables.fences ==> v.tables.fences[s].counts == w.tables.fences[s].counts
  {
    hide Sum;
    ReadIsStored(w.tables, op.s);
  }

  // ---------------------------------------------------------------------------
  // Fences that can be read
  // ---------------------------------------------------------------------------

  ghost predicate AllRead(t: Tables) {
    forall s <- t.fences :: Read(t, s).Success?
  }

  predicate Succeeds(t: Tables, op: Op) {
    match op
    case Beginning(s, proposed, maxScopes) => Begin(t, s, proposed, maxScopes).Success?
    case Accumulating(s, delta, now) => Accumulate(t, s, delta, now).Success?
    case AccumulatingPhase(s, phase, delta, now) => AccumulatePhase(t, s, phase, delta, now).Success?
    case Transitioning(s, expected, next, now) => Transition(t, s, expected, next, now).Success?
    case Finalizing(s, operation, proof) => Finalize(t, s, operation, proof).Success?
  }

  /** What a caller can check: a new fence reads back, a phase has a known name, a new state a meaning. */
  predicate Fits(t: Tables, op: Op) {
    match op
    case Beginning(s, proposed, _) => s in t.fences || ReadableFence(s, proposed)
    case AccumulatingPhase(_, phase, _, _) => phase in PHASES
    case Transitioning(_, _, next, _) => !next.Unknown?
    case _ => true
  }

  /** A session without a fence has no phase rows either. */
  lemma NoFenceNoPhases(w: World, s: Scope)
    requires Accounted(w) && s !in w.tables.fences
    ensures forall k <- w.tables.phases :: k.scope != s
  {
  }

  lemma SumIsValid(c: Counts, d: Counts)
    ensures Sum(c, d).Some? ==> ValidCounts(Sum(c, d).value) && ValidCounts(d)
  {
    if Sum(c, d).Some? {
      forall i | 0 <= i < FIELDS ensures d[i] <= MAX_SAFE_INTEGER { assert c[i] + d[i] <= MAX_SAFE_INTEGER; }
    }
  }

  /** All rows but those of one session are the same. */
  ghost predicate SameElsewhere(t: Tables, u: Tables, s: Scope) {
    && u.fences - {s} == t.fences - {s}
    && (forall k <- t.phases :: k.scope != s ==> k in u.phases && u.phases[k] == t.phases[k])
    && (forall k <- u.phases :: k.scope != s ==> k in t.phases)
  }

  lemma StepIsLocal(w: World, op: Op)
    ensures SameElsewhere(w.tables, Step(w, op).tables, op.s)
  {
    hide Sum, Read, Dated, SameElsewhere;
    var t, u := w.tables, Step(w, op).tables;
    FailedChangesNothing(w, op);
    ReadIsStored(t, op.s);
    if u == t {
      NothingIsLocal(t, op.s);
    } else if op.Finalizing? {
      FinalizedIsLocal(t, op.s);
    } else if op.AccumulatingPhase? {
      CountedIsLocal(t, op.s, u.fences[op.s], PhaseKey(op.s, op.phase), op.delta);
    } else {
      StoredIsLocal(t, op.s, u.fences[op.s]);
    }
  }

  lemma NothingIsLocal(t: Tables, s: Scope)
    ensures SameElsewhere(t, t, s)
  {
  }

  lemma StoredIsLocal(t: Tables, s: Scope, f: Fence)
    ensures SameElsewhere(t, t.(fences := t.fences[s := f]), s)
  {
  }

  lemma CountedIsLocal(t: Tables, s: Scope, f: Fence, k: PhaseKey, delta: Counts)
    requires k.scope == s
    ensures SameElsewhere(t, Tables(t.fences[s := f], t.phases[k := delta]), s)
  {
  }

  lemma FinalizedIsLocal(t: Tables, s: Scope)
    ensures SameElsewhere(t, Tables(t.fences - {s}, map k | k in t.phases && k.scope != s :: t.phases[k]), s)
  {
  }

  /** A session whose rows did not change reads as before. */
  lemma OthersRead(t: Tables, u: Tables, s: Scope, r: Scope)
    requires SameElsewhere(t, u, s) && r != s
    ensures r in u.fences <==> r in t.fences
    ensures Read(u, r) == Read(t, r)
  {
    assert r in t.fences <==> r in t.fences - {s};
    assert r in u.fences <==> r in u.fences - {s};
    if r in t.fences { assert (t.fences - {s})[r] == (u.fences - {s})[r]; }
  }

  lemma PhaseReadsIff(t: Tables, s: Scope, phase: string, delta: Counts, now: Time)
    requires Read(t, s).Success? && AccumulatePhase(t, s, phase, delta, now).Success?
    ensures Read(AccumulatePhase(t, s, phase, delta, now).value.0, s).Success? <==> phase in PHASES
  {
    hide Sum, ValidScope, Dated;
    SumIsValid(t.fences[s].counts, delta);
    assert PhaseKey(s, phase).scope == s;
    assert PhaseKey(s, phase) in AccumulatePhase(t, s, phase, delta, now).value.0.phases;
  }

  /** What a call that succeeds does to its own session. */
  lemma OwnReadsIff(w: World, op: Op)
    requires Accounted(w) && AllRead(w.tables) && Succeeds(w.tables, op)
    ensures var u := Step(w, op).tables;
            if op.s in u.fences then Read(u, op.s).Success? <==> Fits(w.tables, op) else Fits(w.tables, op)
  {
    hide Sum, ValidCounts, Accounted, ValidScope, Dated;
    var t := w.tables;
    match op
    case Beginning(s, proposed, maxScopes) => if s !in t.fences { NoFenceNoPhases(w, s); }
    case Accumulating(s, delta, now) => SumIsValid(t.fences[s].counts, delta);
    case AccumulatingPhase(s, phase, delta, now) => PhaseReadsIff(t, s, phase, delta, now);
    case Transitioning(s, expected, next, now) =>
    case Finalizing(s, operation, proof) =>
  }

  /**
   * A call on readable fences leaves all of them readable exactly if it fits or fails: the store writes the proposed
   * fence, the phase's name and the next state unchecked.
   */
  lemma StepReadsIff(w: World, op: Op)
    requires Accounted(w) && AllRead(w.tables)
    ensures AllRead(Step(w, op).tables) <==> (Succeeds(w.tables, op) ==> Fits(w.tables, op))
  {
    FailedChangesNothing(w, op);
    hide Step, Succeeds, Fits, Read, Accounted, SameElsewhere;
    var t, u := w.tables, Step(w, op).tables;
    if Succeeds(t, op) {
      OwnReadsIff(w, op);
      StepIsLocal(w, op);
      forall s <- u.fences | s != op.s ensures Read(u, s).Success? { OthersRead(t, u, op.s, s); }
    }
  }

  lemma FailedChangesNothing(w: World, op: Op)
    ensures !Succeeds(w.tables, op) ==> Step(w, op) == w
  {
    hide Begin, Accumulate, AccumulatePhase, Transition, Finalize;
  }

  /** A fence that cannot be read stays as it is, whatever is called. */
  lemma UnreadableStays(w: World, op: Op, s: Scope)
    requires s in w.tables.fences && Read(w.tables, s).Failure?
    ensures var u := Step(w, op).tables; s in u.fences && u.fences[s] == w.tables.fences[s] && Read(u, s).Failure?
  {
    FailedChangesNothing(w, op);
    StepIsLocal(w, op);
    hide Step, ReadableFence, ReadablePhases, Dated, Sum;
    if op.s != s {
      OthersRead(w.tables, Step(w, op).tables, op.s, s);
      assert (w.tables.fences - {op.s})[s] == (Step(w, op).tables.fences - {op.s})[s];
    }
  }

  /**
   * In a whole run every stored fence reads at the end exactly if every call that succeeded fitted when it was made.
   */
  lemma {:induction false} RunReadsIff(ops: seq<Op>)
    ensures AllRead(Run(ops).tables) <==>
            forall i :: 0 <= i < |ops| ==>
              var t := Run(ops[..i]).tables; Succeeds(t, ops[i]) ==> Fits(t, ops[i])
  {
    hide Step, Succeeds, Fits, Accounted, Read;
    if ops == [] {
      assert Run(ops) == START;
    } else {
      var n := |ops| - 1;
      var w := Run(ops[..n]);
      RunReadsIff(ops[..n]);
      RunIsAccounted(ops[..n]);
      assert forall i :: 0 <= i < n ==> ops[..n][..i] == ops[..i];
      if AllRead(w.tables) {
        StepReadsIff(w, ops[n]);
      } else {
        var s :| s in w.tables.fences && Read(w.tables, s).Failure?;
        UnreadableStays(w, ops[n], s);
        var i :| 0 <= i < n && !(Succeeds(Run(ops[..n][..i]).tables, ops[..n][i]) ==>
                                 Fits(Run(ops[..n][..i]).tables, ops[..n][i]));
        assert ops[..n][..i] == ops[..i] && ops[..n][i] == ops[i];
      }
    }
  }

  /**
   * Beginning again succeeds exactly on a fence that can be read, is not active and has the same identity, unless a
   * time has to be written that cannot be. It resumes an unfinished teardown with its counts and leaves a complete one
   * alone.
   */
  lemma BeginAgainResumes(t: Tables, s: Scope, proposed: Fence, maxScopes: int)
    requires s in t.fences
    ensures var f, r := t.fences[s], Begin(t, s, proposed, maxScopes);
            && (r.Success? <==>
                  && Read(t, s).Success? && !f.state.Active?
                  && f.operation == proposed.operation && f.proof == proposed.proof
                  && (f.state.Complete? || Dated(proposed.updatedAt)))
            && (r.Success? ==>
                  && r.value.0.phases == t.phases && r.value.0.fences[s] == r.value.1 && r.value.1.counts == f.counts
                  && r.value.1.state == if f.state.Complete? then Complete else Draining)
  {
    hide ReadableFence, ReadablePhases;
    ReadIsStored(t, s);
  }

  /** One session that begins readable, and counts a phase without a known name. */
  function Misnamed(): seq<Op> {
    var s, zero := Scope("s", "u", "e", "c"), seq(FIELDS, i => 0);
    [Beginning(s, Fence(Draining, zero, "op", seq(PROOF_BYTES, i => 0), 1), 8), AccumulatingPhase(s, "other", zero, 2)]
  }

  lemma MisnamedSucceeds()
    ensures var s, ops := Scope("s", "u", "e", "c"), Misnamed();
            && AllRead(Run(ops[..1]).tables) && s in Run(ops).tables.fences
            && Succeeds(Run(ops[..1]).tables, ops[1]) && !Fits(Run(ops[..1]).tables, ops[1])
  {
    var s, ops := Scope("s", "u", "e", "c"), Misnamed();
    assert ops[..1][..0] == [] && ops[..1][0] == ops[0] && ops[..2][..1] == ops[..1] && ops[..2] == ops;
    assert Run(ops[..1][..0]) == START;
    assert Run(ops[..1]) == Step(START, ops[0]);
    assert Run(ops) == Step(Run(ops[..1]), ops[1]);
    assert ValidScope(s);
  }

  /** Whatever is called afterwards, the fence stays unreadable. */
  lemma {:induction false} MisnamedStays(more: seq<Op>)
    ensures var s, t := Scope("s", "u", "e", "c"), Run(Misnamed() + more).tables; s in t.fences && Read(t, s).Failure?
    decreases |more|
  {
    var s, ops := Scope("s", "u", "e", "c"), Misnamed() + more;
    hide Step, Read, Misnamed;
    if more == [] {
      assert ops == Misnamed();
      MisnamedIsUnreadable();
    } else {
      var n := |more| - 1;
      MisnamedStays(more[..n]);
      assert ops[..|ops| - 1] == Misnamed() + more[..n];
      UnreadableStays(Run(Misnamed() + more[..n]), more[n], s);
    }
  }

  /** After such a phase the fence can no longer be read, begun again or finalized, whatever is called in between. */
  lemma UnknownPhaseStopsTeardown(more: seq<Op>, proposed: Fence, maxScopes: int, operation: string, proof: seq<int>)
    ensures var s, t := Scope("s", "u", "e", "c"), Run(Misnamed() + more).tables;
            && s in t.fences && Read(t, s).Failure? && Begin(t, s, proposed, maxScopes).Failure?
            && Finalize(t, s, operation, proof).Failure?
  {
    MisnamedStays(more);
    hide Run, Read, Misnamed;
  }

  lemma MisnamedIsUnreadable()
    ensures var s, t := Scope("s", "u", "e", "c"), Run(Misnamed()).tables; s in t.fences && Read(t, s).Failure?
  {
    var s, ops := Scope("s", "u", "e", "c"), Misnamed();
    MisnamedSucceeds();
    RunIsAccounted(ops[..1]);
    assert Run(ops) == Step(Run(ops[..1]), ops[1]) by { assert ops[..2] == ops; }
    assert ops[1].s == s;
    hide Run, Step, Read, Succeeds, Fits, Accounted;
    OwnReadsIff(Run(ops[..1]), ops[1]);
  }
}
