/** Session teardown: a fence per session with counts of what was torn down, and one row per finished phase. */
module Teardown {
  import opened Outcomes
  import opened ControlRows

  const FIELDS := 12
  const PROOF_BYTES := 32

  /** One counter per kind of resource. */
  type Counts = c: seq<nat> | |c| == FIELDS witness [0, 0, 0, 0, 0, 0, 0, 0, 0, 0, 0, 0]

  predicate ValidCounts(c: Counts) {
    forall i :: 0 <= i < FIELDS ==> c[i] <= MAX_SAFE_INTEGER
  }

  /** States are texts; those without a meaning are refused when they are read. */
  datatype State = Active | Draining | Incomplete | Complete | Unknown(text: string)

  datatype Scope = Scope(session: string, user: string, env: string, channel: string)

  predicate AlphaNumeric(c: char) {
    'A' <= c <= 'Z' || 'a' <= c <= 'z' || '0' <= c <= '9'
  }

  /** A hash, an identifier or the id of an operation: at most 256 characters of a small alphabet. */
  predicate ValidName(s: string) {
    && 0 < |s| <= 256 && AlphaNumeric(s[0])
    && forall c <- s :: AlphaNumeric(c) || c in {'.', '_', ':', '-'}
  }

  predicate ValidScope(s: Scope) {
    ValidName(s.session) && ValidName(s.user) && ValidName(s.env) && ValidName(s.channel)
  }

  datatype Fence = Fence(state: State, counts: Counts, operation: string, proof: seq<int>, updatedAt: Time)

  datatype PhaseKey = PhaseKey(scope: Scope, phase: string)

  const PHASES := {"bridge", "confirmation", "execution", "runtime"}

  datatype Tables = Tables(fences: map<Scope, Fence>, phases: map<PhaseKey, Counts>)

  datatype TeardownError =
    | InvalidState | InvalidCounts | FenceCapacity | ScopeNotFound | ClosedProofInvalid | IdentityMismatch
    | InvalidScope | IdentityInvalid | NotEncodable

  /** The sum in every field, unless one of them would exceed the largest safe integer. */
  function Sum(c: Counts, d: Counts): Option<Counts> {
    if forall i :: 0 <= i < FIELDS ==> c[i] + d[i] <= MAX_SAFE_INTEGER
    then Some(seq(FIELDS, i requires 0 <= i < FIELDS => c[i] + d[i]))
    else None
  }

  /** What a fence must bring to be read back. */
  predicate ReadableFence(s: Scope, f: Fence) {
    && ValidScope(s) && !f.state.Unknown? && ValidCounts(f.counts)
    && f.operation != "" && |f.proof| == PROOF_BYTES
  }

  predicate ReadablePhases(phases: map<PhaseKey, Counts>, s: Scope) {
    forall k <- phases :: k.scope == s ==> k.phase in PHASES && ValidCounts(phases[k])
  }

  /** A fence must read back valid, and so must every phase row of its session. */
  function Read(t: Tables, s: Scope): Result<Fence, TeardownError> {
    if s !in t.fences then Failure(ScopeNotFound)
    else
      if !ReadableFence(s, t.fences[s]) then Failure(InvalidState)
      else if !ReadablePhases(t.phases, s) then Failure(InvalidCounts)
      else Success(t.fences[s])
  }

  /** Beginning twice with the same identity resumes; with another it is refused. */
  function Begin(t: Tables, s: Scope, proposed: Fence, maxScopes: int): Result<(Tables, Fence), TeardownError> {
    if s !in t.fences then
      if |t.fences| >= maxScopes then Failure(FenceCapacity)
      else if !Dated(proposed.updatedAt) then Failure(NotEncodable)
      else Success((t.(fences := t.fences[s := proposed]), proposed))
    else
      match Read(t, s)
      case Failure(e) => Failure(e)
      case Success(f) =>
        if f.operation != proposed.operation || f.proof != proposed.proof then Failure(IdentityMismatch)
        else if f.state.Complete? then Success((t, f))
        else if f.state.Active? then Failure(InvalidState)
        else if !Dated(proposed.updatedAt) then Failure(NotEncodable)
        else
          var resumed := f.(state := Draining, updatedAt := proposed.updatedAt);
          Success((t.(fences := t.fences[s := resumed]), resumed))
  }

  function Accumulate(t: Tables, s: Scope, delta: Counts, now: Time): Result<(Tables, Fence), TeardownError> {
    match Read(t, s)
    case Failure(e) => Failure(e)
    case Success(f) =>
      var sum := Sum(f.counts, delta);
      if !f.state.Draining? then Failure(InvalidState)
      else if sum.None? then Failure(InvalidCounts)
      else if !Dated(now) then Failure(NotEncodable)
      else
        var next := f.(counts := sum.value, updatedAt := now);
        Success((t.(fences := t.fences[s := next]), next))
  }

  /** A phase that was recorded before is not counted again, whatever the retry reports. */
  function AccumulatePhase(t: Tables, s: Scope, phase: string, delta: Counts,
                           now: Time): Result<(Tables, Fence), TeardownError> {
    match Read(t, s)
    case Failure(e) => Failure(e)
    case Success(f) =>
      var sum := Sum(f.counts, delta);
      if !f.state.Draining? then Failure(InvalidState)
      else if PhaseKey(s, phase) in t.phases then Success((t, f))
      else if sum.None? then Failure(InvalidCounts)
      else if !Dated(now) then Failure(NotEncodable)
      else
        var next := f.(counts := sum.value, updatedAt := now);
        Success((Tables(t.fences[s := next], t.phases[PhaseKey(s, phase) := delta]), next))
  }

  function Transition(t: Tables, s: Scope, expected: State, next: State,
                      now: Time): Result<(Tables, Fence), TeardownError> {
    match Read(t, s)
    case Failure(e) => Failure(e)
    case Success(f) =>
      if !(f.state == next && (next.Incomplete? || next.Complete?)) && f.state != expected then Failure(InvalidState)
      else if !Dated(now) then Failure(NotEncodable)
      else
        var moved := f.(state := next, updatedAt := now);
        Success((t.(fences := t.fences[s := moved]), moved))
  }

  /** Only a complete teardown can be finalized, by its own identity; its rows are then deleted. */
  function Finalize(t: Tables, s: Scope, operation: string, proof: seq<int>): Result<Tables, TeardownError> {
    var r := Read(t, s);
    if r.Failure? || !r.value.state.Complete? || r.value.operation != operation || r.value.proof != proof
        then Failure(ClosedProofInvalid)
    else Success(Tables(t.fences - {s}, map k | k in t.phases && k.scope != s :: t.phases[k]))
  }
}
