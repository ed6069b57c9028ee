/** The adapter in front of the session-control store: what it lets through, and why its fences can always be read. */
module TeardownAdapter {
  import opened Outcomes
  import opened ControlRows
  import opened Teardown
  import opened TeardownRuns
  import opened TeardownStore

  /** A digest has a fixed size. */
  type Digest = d: seq<int> | |d| == PROOF_BYTES
    witness [0, 0, 0, 0, 0, 0, 0, 0, 0, 0, 0, 0, 0, 0, 0, 0, 0, 0, 0, 0, 0, 0, 0, 0, 0, 0, 0, 0, 0, 0, 0, 0]

  const NO_COUNTS: Counts := [0, 0, 0, 0, 0, 0, 0, 0, 0, 0, 0, 0]

  datatype Ask =
    | BeginTeardown(s: Scope, operation: string, proof: Digest, now: Time)
    | AddCounted(s: Scope, delta: Counts, now: Time)
    | AddPhase(s: Scope, phase: string, delta: Counts, now: Time)
    | MarkIncomplete(s: Scope, now: Time)
    | MarkComplete(s: Scope, now: Time)
    | FinalizeClosed(s: Scope, operation: string, proof: Digest)

  /** The checks made before the store is called. */
  function Refusal(q: Ask): Check<TeardownError> {
    if !ValidScope(q.s) then Fail(InvalidScope)
    else match q
      case BeginTeardown(_, operation, _, _) => Need(ValidName(operation), IdentityInvalid)
      case AddCounted(_, delta, _) => Need(ValidCounts(delta), InvalidCounts)
      case AddPhase(_, phase, delta, _) => Need(phase in PHASES && ValidCounts(delta), InvalidCounts)
      case _ => Pass
  }

  /** The store operation a request that passes them becomes. */
  function Issued(q: Ask, maxScopes: int): Op {
    match q
    case BeginTeardown(s, operation, proof, now) =>
      Beginning(s, Fence(Draining, NO_COUNTS, operation, proof, now), maxScopes)
    case AddCounted(s, delta, now) => Accumulating(s, delta, now)
    case AddPhase(s, phase, delta, now) => AccumulatingPhase(s, phase, delta, now)
    case MarkIncomplete(s, now) => Transitioning(s, Draining, Incomplete, now)
    case MarkComplete(s, now) => Transitioning(s, Draining, Complete, now)
    case FinalizeClosed(s, operation, proof) => Finalizing(s, operation, proof)
  }

  /** What the adapter demands of a fence the store returns; more than the store itself. */
  function Checked(s: Scope, f: Fence): Result<Fence, TeardownError> {
    if !ReadableFence(s, f) || !ValidName(f.operation) || f.updatedAt == ZERO_TIME then Failure(InvalidState)
    else Success(f)
  }

  function Shown(t: Tables, s: Scope): Result<Fence, TeardownError> {
    if !ValidScope(s) then Failure(InvalidScope)
    else match Read(t, s)
      case Failure(e) => Failure(e)
      case Success(f) => Checked(s, f)
  }

  /** The tables after a store operation, without the log of a run. */
  function Applied(t: Tables, op: Op): Tables {
    Step(World(t, map[]), op).tables
  }

  function After(t: Tables, q: Ask, maxScopes: int): Tables {
    if Refusal(q).Fail? then t else Applied(t, Issued(q, maxScopes))
  }

  function FenceOf(r: Result<(Tables, Fence), TeardownError>): Result<Fence, TeardownError> {
    match r
    case Failure(e) => Failure(e)
    case Success((_, f)) => Success(f)
  }

  /** What the store answers; a finalized teardown has no fence to show. */
  function StoreAnswer(t: Tables, op: Op): Result<Fence, TeardownError> {
    match op
    case Beginning(s, proposed, maxScopes) => FenceOf(Begin(t, s, proposed, maxScopes))
    case Accumulating(s, delta, now) => FenceOf(Accumulate(t, s, delta, now))
    case AccumulatingPhase(s, phase, delta, now) => FenceOf(AccumulatePhase(t, s, phase, delta, now))
    case Transitioning(s, expected, next, now) => FenceOf(Transition(t, s, expected, next, now))
    case Finalizing(_, _, _) => Failure(ScopeNotFound)
  }

  /** What the caller of the adapter sees. */
  function Answer(t: Tables, q: Ask, maxScopes: int): Result<Fence, TeardownError> {
    match Refusal(q)
    case Fail(e) => Failure(e)
    case Pass =>
      match StoreAnswer(t, Issued(q, maxScopes))
      case Failure(e) => Failure(e)
      case Success(f) => Checked(q.s, f)
  }

  lemma StepIsApplied(w: World, op: Op)
    ensures Step(w, op).tables == Applied(w.tables, op)
  {
    hide Begin, Accumulate, AccumulatePhase, Transition, Finalize;
  }

  // ---------------------------------------------------------------------------
  // The adapter
  // ---------------------------------------------------------------------------

  class Adapter {
    const backend: Store
    const maxScopes: int

    constructor (backend: Store, maxScopes: int)
      ensures this.backend == backend && this.maxScopes == maxScopes
    {
      this.backend, this.maxScopes := backend, maxScopes;
    }

    /** The time of a call; the zero time stands for now. */
    function Normalized(now: Time, clock: Time): Time {
      if now == ZERO_TIME then clock else now
    }

    method Get(s: Scope) returns (r: Result<Fence, TeardownError>)
      ensures r == Shown(backend.tables, s)
    {
      if !ValidScope(s) { return Failure(InvalidScope); }
      var value :- Read(backend.tables, s);
      r := Checked(s, value);
    }

    method Begin(s: Scope, operation: string, proof: Digest, now: Time, clock: Time)
      returns (r: Result<Fence, TeardownError>)
      modifies backend
      ensures var q := BeginTeardown(s, operation, proof, Normalized(now, clock));
              && backend.tables == After(old(backend.tables), q, maxScopes)
              && r == Answer(old(backend.tables), q, maxScopes)
    {
      if !ValidScope(s) { return Failure(InvalidScope); }
      if !ValidName(operation) { return Failure(IdentityInvalid); }
      ReadIsStored(backend.tables, s);
      hide Read, ValidScope, ValidName, Dated, ReadableFence;
      var proposed := Fence(Draining, NO_COUNTS, operation, proof, Normalized(now, clock));
      var value :- backend.BeginSessionControlTeardown(s, proposed, maxScopes);
      r := Checked(s, value);
    }

    method Accumulate(s: Scope, delta: Counts, now: Time, clock: Time) returns (r: Result<Fence, TeardownError>)
      modifies backend
      ensures var q := AddCounted(s, delta, Normalized(now, clock));
              && backend.tables == After(old(backend.tables), q, maxScopes)
              && r == Answer(old(backend.tables), q, maxScopes)
    {
      if !ValidScope(s) { return Failure(InvalidScope); }
      if !ValidCounts(delta) { return Failure(InvalidCounts); }
      hide Read, ValidScope, ValidCounts, Dated, ReadableFence, Sum;
      var value :- backend.AccumulateSessionControl(s, delta, Normalized(now, clock));
      r := Checked(s, value);
    }

    method AccumulatePhase(s: Scope, phase: string, delta: Counts, now: Time, clock: Time)
      returns (r: Result<Fence, TeardownError>)
      modifies backend
      ensures var q := AddPhase(s, phase, delta, Normalized(now, clock));
              && backend.tables == After(old(backend.tables), q, maxScopes)
              && r == Answer(old(backend.tables), q, maxScopes)
    {
      if !ValidScope(s) { return Failure(InvalidScope); }
      if phase !in PHASES || !ValidCounts(delta) { return Failure(InvalidCounts); }
      ReadIsStored(backend.tables, s);
      hide Read, ValidScope, ValidCounts, Dated, ReadableFence, Sum;
      var value :- backend.AccumulateSessionControlPhase(s, phase, delta, Normalized(now, clock));
      r := Checked(s, value);
    }

    /** A transition that was refused counts as done if the fence is already where it should go. */
    method Mark(s: Scope, next: State, now: Time, clock: Time) returns (r: Result<Fence, TeardownError>)
      requires next.Incomplete? || next.Complete?
      modifies backend
      ensures var q := if next.Incomplete? then MarkIncomplete(s, Normalized(now, clock))
                       else MarkComplete(s, Normalized(now, clock));
              && backend.tables == After(old(backend.tables), q, maxScopes)
              && r == Answer(old(backend.tables), q, maxScopes)
    {
      if !ValidScope(s) { return Failure(InvalidScope); }
      ReadIsStored(backend.tables, s);
      hide Read, ValidScope, Dated, ReadableFence;
      var value := backend.TransitionSessionControl(s, Draining, next, Normalized(now, clock));
      if value == Failure(InvalidState) {
        var current := Get(s);
        if current.Success? && current.value.state == next { return current; }
      }
      var moved :- value;
      r := Checked(s, moved);
    }

    method Finalize(s: Scope, operation: string, proof: Digest) returns (ok: bool)
      modifies backend
      ensures backend.tables == After(old(backend.tables), FinalizeClosed(s, operation, proof), maxScopes)
      ensures ok <==> ValidScope(s) && Teardown.Finalize(old(backend.tables), s, operation, proof).Success?
    {
      if !ValidScope(s) { return false; }
      hide Read, ValidScope, ReadableFence;
      ok := backend.FinalizeSessionControl(s, operation, proof);
    }
  }

  // ---------------------------------------------------------------------------
  // Runs through the adapter
  // ---------------------------------------------------------------------------

  /** The operations the store sees. */
  function Calls(asks: seq<Ask>, maxScopes: int): seq<Op> {
    if asks == [] then []
    else
      var earlier, last := Calls(asks[..|asks| - 1], maxScopes), asks[|asks| - 1];
      if Refusal(last).Fail? then earlier else earlier + [Issued(last, maxScopes)]
  }

  predicate Timely(q: Ask) {
    q.FinalizeClosed? || q.now != ZERO_TIME
  }

  ghost predicate Kept(t: Tables) {
    AllRead(t) && forall s <- t.fences :: Orderly(t.fences[s])
  }

  /** What the adapter issues always fits. */
  lemma IssuedFits(t: Tables, q: Ask, maxScopes: int)
    requires Refusal(q).Pass?
    ensures Fits(t, Issued(q, maxScopes))
  {
    hide ValidName;
    if q.BeginTeardown? { NamesAreNotEmpty(q); }
  }

  lemma NamesAreNotEmpty(q: Ask)
    requires q.BeginTeardown?
    ensures ValidCounts(NO_COUNTS) && (ValidName(q.operation) ==> q.operation != "")
  {
  }

  /** A fence as the adapter leaves it. */
  predicate Orderly(f: Fence) {
    ValidName(f.operation) && !f.state.Active? && f.updatedAt != ZERO_TIME
  }

  lemma OwnIsOrderly(w: World, q: Ask, maxScopes: int)
    requires q.s in w.tables.fences ==> Orderly(w.tables.fences[q.s])
    requires Refusal(q).Pass? && Timely(q)
    ensures var u := Step(w, Issued(q, maxScopes)).tables; q.s in u.fences ==> Orderly(u.fences[q.s])
  {
    ReadIsStored(w.tables, q.s);
    hide Read, ValidScope, ValidName, ValidCounts, Dated, Sum;
    match q
    case BeginTeardown(s, operation, proof, now) =>
    case AddCounted(s, delta, now) =>
    case AddPhase(s, phase, delta, now) =>
    case MarkIncomplete(s, now) =>
    case MarkComplete(s, now) =>
    case FinalizeClosed(s, operation, proof) =>
  }

  lemma StepIsKept(w: World, q: Ask, maxScopes: int)
    requires Accounted(w) && Kept(w.tables) && Refusal(q).Pass? && Timely(q)
    ensures Kept(Step(w, Issued(q, maxScopes)).tables)
  {
    var op := Issued(q, maxScopes);
    assert op.s == q.s;
    var t, u := w.tables, Step(w, op).tables;
    hide Step, Issued, Accounted, AllRead, SameElsewhere, Orderly, Refusal, Timely, Fits, Succeeds;
    IssuedFits(t, q, maxScopes);
    StepReadsIff(w, op);
    StepIsLocal(w, op);
    OwnIsOrderly(w, q, maxScopes);
    forall s <- u.fences ensures Orderly(u.fences[s]) {
      if s != op.s { ElsewhereIsStored(t, u, op.s, s); }
    }
  }

  lemma ElsewhereIsStored(t: Tables, u: Tables, s: Scope, r: Scope)
    requires SameElsewhere(t, u, s) && r != s && r in u.fences
    ensures r in t.fences && u.fences[r] == t.fences[r]
  {
    assert r in u.fences - {s} && (u.fences - {s})[r] == (t.fences - {s})[r];
  }

  /** Whatever is asked through the adapter, every fence stays as the adapter leaves them. */
  lemma {:induction false} AdapterRunIsKept(asks: seq<Ask>, maxScopes: int)
    requires forall q <- asks :: Timely(q)
    ensures Kept(Run(Calls(asks, maxScopes)).tables)
  {
    hide Kept, Refusal, Issued, Step;
    if asks == [] {
      StartIsKept();
    } else {
      var n := |asks| - 1;
      var earlier := Calls(asks[..n], maxScopes);
      AdapterRunIsKept(asks[..n], maxScopes);
      RunIsAccounted(earlier);
      if Refusal(asks[n]).Pass? {
        var op := Issued(asks[n], maxScopes);
        assert Calls(asks, maxScopes) == earlier + [op] && (earlier + [op])[..|earlier|] == earlier;
        StepIsKept(Run(earlier), asks[n], maxScopes);
      }
    }
  }

  lemma StartIsKept()
    ensures Kept(Run([]).tables)
  {
  }

  /** The methods of the adapter make such runs. */
  lemma RequestsMakeRuns(asks: seq<Ask>, q: Ask, maxScopes: int)
    ensures After(Run(Calls(asks, maxScopes)).tables, q, maxScopes) == Run(Calls(asks + [q], maxScopes)).tables
  {
    hide Step, Refusal, Issued;
    var earlier := Calls(asks, maxScopes);
    assert (asks + [q])[..|asks|] == asks && (asks + [q])[|asks|] == q;
    if Refusal(q).Pass? {
      var op := Issued(q, maxScopes);
      assert (earlier + [op])[..|earlier|] == earlier;
      StepIsApplied(Run(earlier), op);
    }
  }

  /**
   * In every state of every run through the adapter every session with a fence can be read through it, and beginning
   * its teardown again succeeds exactly with the identity it began with, unless a time has to be written that cannot
   * be.
   */
  lemma AdapterAlwaysResumes(asks: seq<Ask>, maxScopes: int, s: Scope, operation: string, proof: Digest, now: Time)
    requires forall q <- asks :: Timely(q)
    requires s in Run(Calls(asks, maxScopes)).tables.fences && now != ZERO_TIME
    ensures var t := Run(Calls(asks, maxScopes)).tables;
            var f, r := t.fences[s], Answer(t, BeginTeardown(s, operation, proof, now), maxScopes);
            && Shown(t, s) == Success(f)
            && (r.Success? <==> f.operation == operation && f.proof == proof && (f.state.Complete? || Dated(now)))
            && (r.Success? ==>
                r.value.counts == f.counts && r.value.state == if f.state.Complete? then Complete else Draining)
  {
    hide Run, Calls, ValidName, ValidCounts, Dated;
    AdapterRunIsKept(asks, maxScopes);
    var t := Run(Calls(asks, maxScopes)).tables;
    ReadIsStored(t, s);
    BeginAgainResumes(t, s, Fence(Draining, NO_COUNTS, operation, proof, now), maxScopes);
  }
}
