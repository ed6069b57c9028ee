/** Installs of inspected packages over whole runs: one claim per inspection, and a final first outcome. */
module ExecutionInstalls {
  import opened Outcomes
  import opened ControlRows
  import opened Executions

  /** Everything that writes the execution table. A finish works on the row it read in an earlier state. */
  datatype Op =
    | Creating(id: string, owner: Owner, instance: string, cancelable: bool)
    | Appending(id: string, sequence: nat)
    | Canceling(id: string)
    | Finishing(id: string, status: Status, code: string, sequence: nat, now: Time)
    | Reconciling(now: Time)
    | Pruning(q: PruneRequest)
    | Starting(owner: Owner, instance: string, install: Install)
    | FinishingInstall(readAt: nat, owner: Owner, request: string, outcome: Outcome, code: string, now: Time)

  /** The row a finish read, if it could be read at all. */
  function ReadRow(identify: Identify, history: seq<Table>, op: Op): Option<Row>
    requires op.FinishingInstall? && op.readAt < |history|
  {
    var r := GetInstall(identify, history[op.readAt], op.owner, op.request);
    if r.Success? then Some(r.value) else None
  }

  predicate Possible(history: seq<Table>, op: Op) {
    history != [] && (op.FinishingInstall? ==> op.readAt < |history|)
  }

  function Kept(t: Table, r: Result<Table, ExecutionError>): Table {
    if r.Success? then r.value else t
  }

  function Last(history: seq<Table>): Table
    requires history != []
  {
    history[|history| - 1]
  }

  /** The table after an operation on the last state. */
  function Next(identify: Identify, history: seq<Table>, op: Op): Table
    requires Possible(history, op)
  {
    var t := Last(history);
    match op
    case Creating(id, owner, instance, cancelable) => Kept(t, Create(t, id, owner, instance, cancelable))
    case Appending(id, sequence) => Kept(t, Append(t, id, sequence))
    case Canceling(id) => Kept(t, RequestCancel(t, id))
    case Finishing(id, status, code, sequence, now) => Kept(t, Finish(t, id, status, code, sequence, now))
    case Reconciling(now) => ReconcileOrphans(t, now)
    case Pruning(q) => if ValidPrune(q) then Pruned(t, q) else t
    case Starting(owner, instance, install) =>
      var r := StartInstall(identify, t, owner, instance, install);
      if r.Success? then r.value.0 else t
    case FinishingInstall(readAt, owner, request, outcome, code, now) =>
      var read := ReadRow(identify, history, op);
      if read.None? then t
      else
        var r := FinishInstall(t, identify(owner.user, owner.env, request), read.value, outcome, code, now);
        if r.Success? then r.value.0 else t
  }

  /** Whether an operation claimed an inspection. */
  predicate Created(identify: Identify, t: Table, op: Op) {
    op.Starting? && var r := StartInstall(identify, t, op.owner, op.instance, op.install); r.Success? && r.value.2
  }

  // ---------------------------------------------------------------------------
  // What every operation keeps
  // ---------------------------------------------------------------------------

  /** No two executions of one user and environment hold the same inspection. */
  ghost predicate OneClaim(t: Table) {
    forall a <- t, b <- t :: a != b && t[a].install.Some? && t[b].install.Some? ==>
      !(t[a].owner.user == t[b].owner.user && t[a].owner.env == t[b].owner.env
        && t[a].install.value.inspection == t[b].install.value.inspection)
  }

  /** The same install: everything but its progress and outcome. */
  predicate SameInstall(r: Row, s: Row) {
    && r.install.Some? && s.install.Some? && r.owner == s.owner && r.instance == s.instance && !r.cancelable
    && !s.cancelable
    && r.install.value.(outcome := Unknown) == s.install.value.(outcome := Unknown)
    && r.cursor <= s.cursor
  }

  /** An install row is never deleted or replaced, and once it is terminal it never changes. */
  ghost predicate Onward(before: Table, after: Table) {
    forall id <- before :: before[id].install.Some? ==> id in after && InstallOnward(before[id], after[id])
  }

  predicate InstallOnward(r: Row, s: Row) {
    r == s || (!Terminal(r.status) && SameInstall(r, s))
  }

  /** Only installs that cannot be canceled are stored. */
  ghost predicate Firm(t: Table) {
    forall id <- t :: t[id].install.Some? ==> !t[id].cancelable && !t[id].status.CancelRequested?
  }

  lemma OnwardTransitive(a: Table, b: Table, c: Table)
    requires Onward(a, b) && Onward(b, c)
    ensures Onward(a, c)
  {
  }

  /** An earlier state leads to the last one. */
  ghost predicate Leads(history: seq<Table>) {
    forall i :: 0 <= i < |history| ==> Onward(history[i], history[|history| - 1])
  }

  // ---------------------------------------------------------------------------
  // Steps
  // ---------------------------------------------------------------------------

  /** Operations that know nothing of installs change them only by ending them. */
  predicate Plain(op: Op) {
    !op.Starting? && !op.FinishingInstall?
  }

  lemma PlainStep(identify: Identify, history: seq<Table>, op: Op)
    requires Possible(history, op) && Plain(op) && Firm(Last(history))
    ensures var t, u := Last(history), Next(identify, history, op);
            && Onward(t, u) && Firm(u)
            && forall id <- u :: u[id].install.Some? ==>
                 id in t && t[id].install == u[id].install && t[id].owner == u[id].owner
  {
    hide Pruned, ValidPrune;
    if op.Pruning? && ValidPrune(op.q) { PruneKeepsInstalls(Last(history), op.q); }
  }

  lemma PruneKeepsInstalls(t: Table, q: PruneRequest)
    ensures var u := Pruned(t, q);
            && (forall id <- u :: id in t && u[id] == t[id])
            && (forall id <- t :: t[id].install.Some? ==> id in u)
  {
  }

  lemma StartStep(identify: Identify, history: seq<Table>, op: Op)
    requires Possible(history, op) && op.Starting? && Firm(Last(history)) && OneClaim(Last(history))
    ensures var t, u := Last(history), Next(identify, history, op); Onward(t, u) && Firm(u) && OneClaim(u)
    ensures var t, u := Last(history), Next(identify, history, op);
            Created(identify, t, op) ==> !InspectionTaken(t, op.owner.user, op.owner.env, op.install.inspection)
                                         && InspectionTaken(u, op.owner.user, op.owner.env, op.install.inspection)
  {
    hide GetInstall, Startable, ValidOwner;
    var t, u := Last(history), Next(identify, history, op);
    var id := identify(op.owner.user, op.owner.env, op.install.request);
    if u != t {
      assert u == t[id := u[id]] && id !in t;
      assert Claims(u[id], op.owner.user, op.owner.env, op.install.inspection);
      forall a <- t | t[a].install.Some? ensures !Claims(t[a], op.owner.user, op.owner.env, op.install.inspection) {}
    }
  }

  lemma FinishInstallStep(identify: Identify, history: seq<Table>, op: Op)
    requires Possible(history, op) && op.FinishingInstall? && Firm(Last(history)) && OneClaim(Last(history))
             && Leads(history)
    ensures var t, u := Last(history), Next(identify, history, op); Onward(t, u) && Firm(u) && OneClaim(u)
  {
    var t, u := Last(history), Next(identify, history, op);
    var id := identify(op.owner.user, op.owner.env, op.request);
    if u != t {
      var earlier := history[op.readAt];
      assert Onward(earlier, t) && id in earlier && earlier[id].install.Some?;
      assert InstallOnward(earlier[id], t[id]);
      assert u == t[id := u[id]] && SameInstall(t[id], u[id]);
    }
  }

  // ---------------------------------------------------------------------------
  // Whole runs
  // ---------------------------------------------------------------------------

  /** Reads come before the writes that use them. */
  predicate Feasible(ops: seq<Op>) {
    forall i :: 0 <= i < |ops| && ops[i].FinishingInstall? ==> ops[i].readAt <= i
  }

  /** All states of a run of the empty table, first to last. */
  ghost function States(identify: Identify, ops: seq<Op>): (r: seq<Table>)
    requires Feasible(ops)
    ensures |r| == |ops| + 1
  {
    if ops == [] then [map[]]
    else
      var history := States(identify, ops[..|ops| - 1]);
      history + [Next(identify, history, ops[|ops| - 1])]
  }

  ghost predicate Sane(history: seq<Table>) {
    history != [] && Firm(Last(history)) && OneClaim(Last(history)) && Leads(history)
  }

  lemma StepIsSane(identify: Identify, history: seq<Table>, op: Op)
    requires Possible(history, op) && Sane(history)
    ensures Sane(history + [Next(identify, history, op)]) && Onward(Last(history), Next(identify, history, op))
  {
    var t, u := Last(history), Next(identify, history, op);
    if Plain(op) {
      PlainStep(identify, history, op);
    } else if op.Starting? {
      StartStep(identify, history, op);
    } else {
      FinishInstallStep(identify, history, op);
    }
    hide Next, Firm, OneClaim;
    assert OneClaim(u) by { if Plain(op) { PlainKeepsClaims(t, u); } }
    hide InstallOnward;
    var longer := history + [u];
    forall i | 0 <= i < |longer| ensures Onward(longer[i], u) {
      if i < |history| { assert Onward(history[i], t); OnwardTransitive(history[i], t, u); }
    }
  }

  /** Rows that keep their owner and install keep their claims apart. */
  lemma PlainKeepsClaims(t: Table, u: Table)
    requires OneClaim(t)
    requires forall id <- u :: u[id].install.Some? ==>
               id in t && t[id].install == u[id].install && t[id].owner == u[id].owner
    ensures OneClaim(u)
  {
  }

  lemma {:induction false} RunIsSane(identify: Identify, ops: seq<Op>)
    requires Feasible(ops)
    ensures Sane(States(identify, ops))
  {
    if ops != [] {
      var history := States(identify, ops[..|ops| - 1]);
      RunIsSane(identify, ops[..|ops| - 1]);
      StepIsSane(identify, history, ops[|ops| - 1]);
    }
  }

  lemma {:induction false} StatesOfPrefix(identify: Identify, ops: seq<Op>, n: nat)
    requires Feasible(ops) && n <= |ops|
    ensures States(identify, ops[..n]) == States(identify, ops)[..n + 1]
    decreases |ops|
  {
    if n == |ops| {
      assert ops[..n] == ops;
    } else {
      var shorter := ops[..|ops| - 1];
      StatesOfPrefix(identify, shorter, n);
      assert shorter[..n] == ops[..n];
    }
  }

  /** Every state of a run leads to every later one. */
  lemma RunMovesOnward(identify: Identify, ops: seq<Op>, i: nat, j: nat)
    requires Feasible(ops) && i <= j <= |ops|
    ensures Onward(States(identify, ops)[i], States(identify, ops)[j]) && Firm(States(identify, ops)[j])
            && OneClaim(States(identify, ops)[j])
  {
    hide Onward, Firm, OneClaim;
    StatesOfPrefix(identify, ops, j);
    RunIsSane(identify, ops[..j]);
    var history := States(identify, ops[..j]);
    assert history[i] == States(identify, ops)[i] && Last(history) == States(identify, ops)[j];
  }

  /** Under any retries and any other operations, the first terminal outcome of an install is final. */
  lemma FirstOutcomeIsFinal(identify: Identify, ops: seq<Op>, i: nat, j: nat, id: string)
    requires Feasible(ops) && i <= j <= |ops|
    requires var t := States(identify, ops)[i]; id in t && t[id].install.Some? && Terminal(t[id].status)
    ensures var t, u := States(identify, ops)[i], States(identify, ops)[j]; id in u && u[id] == t[id]
  {
    hide States;
    RunMovesOnward(identify, ops, i, j);
  }

  /** Under any retries, each inspection is claimed by at most one start. */
  lemma InspectionClaimedOnce(identify: Identify, ops: seq<Op>, i: nat, j: nat)
    requires Feasible(ops) && i < j < |ops| && ops[i].Starting? && ops[j].Starting?
    requires Created(identify, States(identify, ops)[i], ops[i]) && Created(identify, States(identify, ops)[j], ops[j])
    ensures (ops[i].owner.user, ops[i].owner.env, ops[i].install.inspection) != (ops[j].owner.user, ops[j].owner.env,
            ops[j].install.inspection)
  {
    hide Next, Created, OneClaim, Firm;
    var states := States(identify, ops);
    ClaimedAt(identify, ops, i);
    ClaimedAt(identify, ops, j);
    RunMovesOnward(identify, ops, i + 1, j);
    TakenStays(states[i + 1], states[j], ops[i].owner.user, ops[i].owner.env, ops[i].install.inspection);
  }

  lemma ClaimedAt(identify: Identify, ops: seq<Op>, i: nat)
    requires Feasible(ops) && i < |ops| && ops[i].Starting? && Created(identify, States(identify, ops)[i], ops[i])
    ensures var s, o := States(identify, ops), ops[i];
            && !InspectionTaken(s[i], o.owner.user, o.owner.env, o.install.inspection)
            && InspectionTaken(s[i + 1], o.owner.user, o.owner.env, o.install.inspection)
  {
    hide Next, Created, OneClaim, Firm, Onward, InspectionTaken, States, Leads;
    StateAfter(identify, ops, i);
    RunIsSane(identify, ops[..i]);
    StartStep(identify, States(identify, ops[..i]), ops[i]);
  }

  lemma LastStates(identify: Identify, ops: seq<Op>, history: seq<Table>, op: Op)
    requires Feasible(ops + [op]) && Feasible(ops) && history == States(identify, ops)
    ensures Possible(history, op) && States(identify, ops + [op]) == history + [Next(identify, history, op)]
  {
    hide Next;
    assert (ops + [op])[|ops|] == op;
    assert (ops + [op])[..|ops| + 1 - 1] == ops;
  }

  /** Each state of a run is the result of its operation on the states before it. */
  lemma StateAfter(identify: Identify, ops: seq<Op>, i: nat)
    requires Feasible(ops) && i < |ops|
    ensures var history := States(identify, ops[..i]);
            && Possible(history, ops[i]) && Last(history) == States(identify, ops)[i]
            && Next(identify, history, ops[i]) == States(identify, ops)[i + 1]
  {
    hide Next, States;
    var history := States(identify, ops[..i]);
    StatesOfPrefix(identify, ops, i);
    StatesOfPrefix(identify, ops, i + 1);
    assert ops[..i + 1] == ops[..i] + [ops[i]];
    LastStates(identify, ops[..i], history, ops[i]);
    assert States(identify, ops[..i + 1])[i + 1] == Next(identify, history, ops[i]);
  }

  lemma TakenStays(t: Table, u: Table, user: string, env: string, inspection: string)
    requires Onward(t, u) && InspectionTaken(t, user, env, inspection)
    ensures InspectionTaken(u, user, env, inspection)
  {
    var id :| id in t && Claims(t[id], user, env, inspection);
    assert Claims(u[id], user, env, inspection);
  }

  // ---------------------------------------------------------------------------
  // Starting, reading, finishing
  // ---------------------------------------------------------------------------

  /** What a start returns is what a read finds, and repeating the start finds it again without creating anything. */
  lemma StartedIsFound(identify: Identify, t: Table, owner: Owner, instance: string, install: Install)
    requires StartInstall(identify, t, owner, instance, install).Success?
    ensures var (u, row, created) := StartInstall(identify, t, owner, instance, install).value;
            && GetInstall(identify, u, owner, install.request) == Success(row)
            && StartInstall(identify, u, owner, instance, install) == Success((u, row, false))
            && (created ==> row.status.Running? && row.install.value.outcome.Unknown?) && (!created ==> u == t)
  {
    hide PackageHash, ValidRequest, ValidOwner, InspectionTaken;
  }

  /** Finishing what was just read ends the install with that outcome, and no later finish changes it. */
  lemma FinishedIsFound(identify: Identify, t: Table, owner: Owner, request: string, outcome: Outcome, code: string,
                        now: Time, other: Outcome, otherCode: string, later: Time)
    requires GetInstall(identify, t, owner, request).Success?
             && GetInstall(identify, t, owner, request).value.status.Running?
    ensures var id, read := identify(owner.user, owner.env, request), GetInstall(identify, t, owner, request).value;
            var r := FinishInstall(t, id, read, outcome, code, now);
            && r.Success?
            && var (u, ended) := r.value;
            && GetInstall(identify, u, owner, request) == Success(ended)
            && ended.install.value.outcome == outcome && ended.code == code && Terminal(ended.status)
            && (ended.status.Completed? <==> outcome.Committed? && code == "")
            && FinishInstall(u, id, ended, other, otherCode, later) == Success((u, ended))
  {
    hide PackageHash, ValidRequest, ValidOwner;
  }

  /** After a restart nothing is running, and what had ended is as it was. */
  lemma ReconcileEndsEverything(t: Table, now: Time, later: Time)
    ensures var u := ReconcileOrphans(t, now);
            && u.Keys == t.Keys && (forall id <- u :: Terminal(u[id].status)) && ReconcileOrphans(u, later) == u
            && (forall id <- t :: Terminal(t[id].status) ==> u[id] == t[id])
            && (forall id <- t :: u[id].status.Canceled? <==> t[id].status.Canceled? || t[id].status.CancelRequested?)
  {
    var u := ReconcileOrphans(t, now);
    assert ReconcileOrphans(u, later) == u;
  }
}
