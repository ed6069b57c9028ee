/** The execution table: what runs, how it ends, and which rows are kept. */
module Executions {
  import opened Outcomes
  import opened ControlRows
  import opened Ordering

  datatype Status = Running | CancelRequested | Completed | Canceled | Failed | Orphaned

  predicate Terminal(s: Status) {
    s.Completed? || s.Canceled? || s.Failed? || s.Orphaned?
  }

  datatype Outcome = Committed | NotCommitted | Unknown

  datatype Owner = Owner(session: string, user: string, env: string, channel: string)

  predicate ValidOwner(o: Owner) {
    o.session != "" && o.user != "" && o.env != "" && o.channel != ""
  }

  /** The payload of an execution that installs an inspected package. */
  datatype Install = Install(request: string, inspection: string, sha: string, plugin: string, version: string,
    automatic: bool, outcome: Outcome)

  datatype Row = Row(
    owner: Owner,
    instance: string,
    status: Status,
    cursor: nat,
    code: string,
    cancelable: bool,
    terminalAt: Option<Time>, // as its column holds it
    install: Option<Install>)

  type Table = map<string, Row>

  /** The identity an install execution is filed under; any function of user, environment and request. */
  type Identify = (string, string, string) -> string

  datatype ExecutionError = NotFound | StateConflict | RevisionConflict | InvalidTransition | NotCancelable
    | DuplicateId | InvalidRequest | BadRow

  // ---------------------------------------------------------------------------
  // Life of an execution
  // ---------------------------------------------------------------------------

  /** Ending a row with a terminal event of the next sequence number. */
  function Ended(r: Row, status: Status, code: string, now: Time): Row {
    r.(status := status, cursor := r.cursor + 1, code := code, terminalAt := Some(Nanos(now)))
  }

  function CanEnd(r: Row, status: Status): bool {
    !Terminal(r.status) && Terminal(status) && (status.Canceled? ==> r.status.CancelRequested?)
  }

  function Create(t: Table, id: string, owner: Owner, instance: string,
                  cancelable: bool): Result<Table, ExecutionError> {
    if !ValidOwner(owner) || id == "" || instance == "" then Failure(InvalidRequest)
    else if id in t then Failure(DuplicateId)
    else Success(t[id := Row(owner, instance, Running, 0, "", cancelable, None, None)])
  }

  function Append(t: Table, id: string, sequence: nat): Result<Table, ExecutionError> {
    if id !in t then Failure(NotFound)
    else if Terminal(t[id].status) || sequence != t[id].cursor + 1 then Failure(InvalidTransition)
    else Success(t[id := t[id].(cursor := sequence)])
  }

  function RequestCancel(t: Table, id: string): Result<Table, ExecutionError> {
    if id !in t then Failure(NotFound)
    else if !t[id].status.Running? then Failure(InvalidTransition)
    else if !t[id].cancelable then Failure(NotCancelable)
    else Success(t[id := t[id].(status := CancelRequested)])
  }

  function Finish(t: Table, id: string, status: Status, code: string, sequence: nat,
                  now: Time): Result<Table, ExecutionError> {
    if id !in t then Failure(NotFound)
    else if !CanEnd(t[id], status) || sequence != t[id].cursor + 1 then Failure(InvalidTransition)
    else Success(t[id := Ended(t[id], status, code, now)])
  }

  const PLATFORM_FAILED := "platform_failed"

  /** After a restart nothing is running: a pending cancellation is granted, everything else is orphaned. */
  function Orphan(r: Row, now: Time): Row {
    if r.status.CancelRequested? then Ended(r, Canceled, "", now)
    else if r.status.Running? then Ended(r, Orphaned, PLATFORM_FAILED, now)
    else r
  }

  function InStatus(t: Table, status: Status): set<string> {
    set id | id in t && t[id].status == status
  }

  function ReconcileOrphans(t: Table, now: Time): Table {
    map id | id in t :: Orphan(t[id], now)
  }

  // ---------------------------------------------------------------------------
  // Inspected installs
  // ---------------------------------------------------------------------------

  predicate LowerHex(c: char) {
    '0' <= c <= '9' || 'a' <= c <= 'f'
  }

  predicate PackageHash(s: string) {
    |s| == 71 && s[..7] == "sha256:" && forall i :: 7 <= i < 71 ==> LowerHex(s[i])
  }

  predicate ValidRequest(request: string) {
    request != "" && |request| <= 160 && Trim(request) == request
  }

  /** What a stored install must look like to be read. */
  predicate ReadableInstall(r: Row, request: string) {
    && r.install.Some? && r.install.value.request == request && PackageHash(r.install.value.sha)
    && r.install.value.inspection != "" && r.install.value.plugin != "" && r.install.value.version != ""
    && !r.cancelable && (Terminal(r.status) ==> r.terminalAt.Some?)
    && (r.status.Completed? ==> r.install.value.outcome.Committed?)
  }

  function GetInstall(identify: Identify, t: Table, owner: Owner, request: string): Result<Row, ExecutionError> {
    var id := identify(owner.user, owner.env, request);
    if !ValidOwner(owner) || !ValidRequest(request) then Failure(NotFound)
    else if id !in t || t[id].owner.user != owner.user || t[id].owner.env != owner.env then Failure(NotFound)
    else if !ReadableInstall(t[id], request) then Failure(BadRow)
    else Success(t[id])
  }

  /** Another execution of this user and environment already holds the inspection. */
  predicate InspectionTaken(t: Table, user: string, env: string, inspection: string) {
    exists id <- t :: Claims(t[id], user, env, inspection)
  }

  predicate Claims(r: Row, user: string, env: string, inspection: string) {
    r.install.Some? && r.owner.user == user && r.owner.env == env && r.install.value.inspection == inspection
  }

  predicate Startable(owner: Owner, instance: string, install: Install) {
    && ValidRequest(install.request) && install.inspection != "" && PackageHash(install.sha)
    && instance != "" && install.plugin != "" && install.version != ""
  }

  /** The table after starting an install, the row it is known by, and whether this call created it. */
  function StartInstall(identify: Identify, t: Table, owner: Owner, instance: string,
                        install: Install): Result<(Table, Row, bool), ExecutionError> {
    var id := identify(owner.user, owner.env, install.request);
    var row := Row(owner, instance, Running, 0, "", false, None, Some(install.(outcome := Unknown)));
    if !ValidOwner(owner) then Failure(NotFound)
    else if !Startable(owner, instance, install) || id == "" then Failure(StateConflict)
    else if id in t then
      match GetInstall(identify, t, owner, install.request)
      case Failure(e) => Failure(e)
      case Success(earlier) =>
        if earlier.install.value.inspection != install.inspection || earlier.install.value.sha != install.sha
            || earlier.install.value.automatic != install.automatic
        then Failure(StateConflict) else Success((t, earlier, false))
    else if InspectionTaken(t, owner.user, owner.env, install.inspection) then Failure(StateConflict)
    else Success((t[id := row], row, true))
  }

  /** The row an install would end as, from the row that was read. */
  function EndedInstall(read: Row, outcome: Outcome, code: string, now: Time): Row
    requires read.install.Some?
  {
    Ended(read, if outcome.Committed? && code == "" then Completed
          else Failed, code, now).(install := Some(read.install.value.(outcome := outcome)))
  }

  /**
   * Ending an install from a row that was read earlier: nothing happens if it was terminal then, and the update is
   * refused if the row has moved on since.
   */
  function FinishInstall(t: Table, id: string, read: Row, outcome: Outcome, code: string,
                         now: Time): Result<(Table, Row), ExecutionError>
    requires read.install.Some?
  {
    var ended := EndedInstall(read, outcome, code, now);
    if !read.status.Running? then Success((t, read))
    else if id in t && t[id].status.Running? && t[id].cursor == read.cursor then
      Success((t[id := t[id].(status := ended.status, cursor := ended.cursor, code := code,
                              terminalAt := ended.terminalAt,
                              install := ended.install)], ended))
    else Failure(RevisionConflict)
  }

  // ---------------------------------------------------------------------------
  // Pruning
  // ---------------------------------------------------------------------------

  const MAX_BATCH := 5000
  const MAX_KEPT := 100_000

  datatype PruneRequest = PruneRequest(before: Time, limit: int, kept: int)

  predicate ValidPrune(q: PruneRequest) {
    q.before != ZERO_TIME && 1 <= q.limit <= MAX_BATCH && 1 <= q.kept <= MAX_KEPT
  }

  /** Ended rows that may go: installs of inspected packages are kept for good. */
  function Endable(t: Table): set<string> {
    set id | id in t && t[id].terminalAt.Some? && Terminal(t[id].status) && t[id].install.None?
  }

  /** The ended rows of one plugin in one environment. */
  function Partition(t: Table, id: string): set<string>
    requires id in t
  {
    set j | j in Endable(t) && t[j].owner.env == t[id].owner.env && t[j].instance == t[id].instance
  }

  /** Ended earlier, ties by id. */
  predicate Older(t: Table, a: string, b: string) {
    && a in t && b in t && t[a].terminalAt.Some? && t[b].terminalAt.Some?
    && (t[a].terminalAt.value < t[b].terminalAt.value
        || (t[a].terminalAt.value == t[b].terminalAt.value && StringLess(a, b)))
  }

  function ByAge(t: Table): (string, string) -> bool {
    (a, b) => Older(t, a, b)
  }

  function Newest(t: Table): (string, string) -> bool {
    (a, b) => Older(t, b, a)
  }

  /** The position of a row among those of its plugin, the newest first, counted from 0. */
  function Position(t: Table, id: string): nat
    requires id in t
  {
    Rank(Newest(t), Partition(t, id), id)
  }

  /** Rows that are too old or beyond what is kept per plugin. */
  function Prunable(t: Table, q: PruneRequest): set<string> {
    set id | id in Endable(t) && (t[id].terminalAt.value < Nanos(q.before) || Position(t, id) >= q.kept)
  }

  /** The oldest prunable rows, up to the limit. */
  function Batch(t: Table, q: PruneRequest): set<string> {
    FirstRanked(ByAge(t), Prunable(t, q), q.limit)
  }

  function Pruned(t: Table, q: PruneRequest): Table {
    t - Batch(t, q)
  }
}
