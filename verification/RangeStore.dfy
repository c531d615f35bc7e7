/** Rows of the range execution protocol, its transactions, and the repository that runs them in place. */
module RangeStore {
  import opened Json
  import opened Leases
  import Ordering

  type Time = int

  datatype EndMode = Fixed | Latest

  datatype RangeStatus = RangePending | RangeActive | RangePaused | RangeCompleted | RangeFailed

  datatype Range = Range(
    channel: Id,
    endMode: EndMode,
    startAt: Time,
    endAt: Option<Time>,
    steadyAfter: Option<int>,
    start: Option<int>,
    fixedEnd: Option<int>,
    watermark: Option<int>,
    activeHigh: Option<int>,
    status: RangeStatus,
    enabled: bool)

  datatype Channel = Channel(enabled: bool, profile: Option<Id>)

  datatype ExecutionStatus = Pending | Running | RetryWait | Completed | Failed

  datatype Failure = Failure(code: string, kind: string, at: Time)

  datatype Execution = Execution(
    range: Id,
    profile: Id,
    low: int,
    high: int,
    watermark: int,
    status: ExecutionStatus,
    attempts: int,
    maxAttempts: int,
    nextRetry: Option<Time>,
    token: Option<Token>,
    expires: Option<Time>,
    startedAt: Option<Time>,
    completedAt: Option<Time>,
    failure: Option<Failure>)
  {
    predicate Terminal() { status.Completed? || status.Failed? }
  }

  datatype Queue = RangeExecutions | OtherQueue(name: string)

  datatype WakeupStatus = WakeupPending | WakeupLeased | WakeupCompleted | WakeupCancelled

  datatype Wakeup = Wakeup(
    queue: Queue,
    entity: Id,
    status: WakeupStatus,
    nextAttempt: Time,
    token: Option<Token>,
    expires: Option<Time>,
    dispatches: int,
    lastDispatched: Option<Time>,
    completedAt: Option<Time>)
  {
    /** Selected by the terminal and rescheduling updates of execution `id`. */
    predicate Serves(id: Id) { queue.RangeExecutions? && entity == id && !status.WakeupCancelled? }
  }

  datatype Db = Db(channels: map<Id, Channel>, ranges: map<Id, Range>, executions: map<Id, Execution>,
    wakeups: map<Id, Wakeup>)

  /** The message ID up to which a resolved range is processed. */
  function Progress(r: Range): int
    requires r.start.Some? || r.watermark.Some?
  {
    if r.watermark.Some? then r.watermark.value else r.start.value - 1
  }

  // ---------------------------------------------------------------- freezing a window

  datatype Window = Window(id: Id, range: Id, profile: Id, low: int, high: int, maxAttempts: int)

  predicate CanFreeze(r: Range, channel: Channel, w: Window) {
    && channel.enabled && r.enabled
    && (r.status.RangePending? || r.status.RangeActive?)
    && r.activeHigh.None? && r.start.Some?
    && channel.profile == Some(w.profile)
    && w.low == Progress(r) && w.high > Progress(r)
    && (r.endMode.Fixed? ==> Some(w.high) == r.fixedEnd)
  }

  predicate Active(e: Execution) { e.status.Pending? || e.status.Running? || e.status.RetryWait? }

  /** The insert hits a unique index: the primary key, the bounds, or the single active execution of the range. */
  predicate InsertConflict(executions: map<Id, Execution>, w: Window) {
    || w.id in executions
    || exists id | id in executions ::
         executions[id].range == w.range
           && (Active(executions[id]) || (executions[id].low == w.low && executions[id].high == w.high))
  }

  function Frozen(w: Window): Execution {
    Execution(w.range, w.profile, w.low, w.high, w.low, Pending, 0, w.maxAttempts, None, None, None, None, None, None)
  }

  function NewWakeup(queue: Queue, entity: Id, at: Time): Wakeup {
    Wakeup(queue, entity, WakeupPending, at, None, None, 0, None, None)
  }

  predicate MayFreeze(db: Db, w: Window) {
    && w.range in db.ranges && db.ranges[w.range].channel in db.channels
    && CanFreeze(db.ranges[w.range], db.channels[db.ranges[w.range].channel], w)
  }

  predicate Freezes(db: Db, w: Window) { MayFreeze(db, w) && !InsertConflict(db.executions, w) }

  function AfterFreeze(db: Db, w: Window, wakeup: Id, at: Time): Db {
    if !Freezes(db, w) then db
    else db.(
      ranges := db.ranges[w.range := db.ranges[w.range].(activeHigh := Some(w.high), status := RangeActive)],
      executions := db.executions[w.id := Frozen(w)],
      wakeups := db.wakeups[wakeup := NewWakeup(RangeExecutions, w.id, at)])
  }

  // ---------------------------------------------------------------- wake-ups

  predicate Due(w: Wakeup, now: Time) {
    || (w.status.WakeupPending? && w.nextAttempt <= now)
    || (w.status.WakeupLeased? && w.expires.Some? && w.expires.value <= now)
  }

  /** When a wake-up is due, and its ID: the order in which due rows are claimed. */
  datatype Turn = Turn(at: Time, id: Id)

  predicate TurnBefore(a: Turn, b: Turn) { a.at < b.at || (a.at == b.at && a.id < b.id) }

  lemma TurnOrder()
    ensures Ordering.TotalOrder(TurnBefore)
  {
  }

  /** The turns of the due rows that no other transaction holds. */
  function Turns(wakeups: map<Id, Wakeup>, locked: set<Id>, now: Time): set<Turn> {
    set k | k in wakeups && k !in locked && Due(wakeups[k], now) :: Turn(wakeups[k].nextAttempt, k)
  }

  /** The rows `due_wakeup_claim_statement` selects: due, not held elsewhere, the first `limit` of them in order. */
  ghost predicate Selected(wakeups: map<Id, Wakeup>, locked: set<Id>, limit: nat, now: Time, rows: seq<Id>) {
    && |rows| <= limit
    && (forall i | 0 <= i < |rows| :: rows[i] in wakeups && rows[i] !in locked && Due(wakeups[rows[i]], now))
    && (forall i, j | 0 <= i < j < |rows| ::
          TurnBefore(Turn(wakeups[rows[i]].nextAttempt, rows[i]), Turn(wakeups[rows[j]].nextAttempt, rows[j])))
    && (forall k | k in wakeups && k !in locked && k !in rows && Due(wakeups[k], now) ::
          && |rows| == limit
          && forall i | 0 <= i < |rows| ::
               TurnBefore(Turn(wakeups[rows[i]].nextAttempt, rows[i]), Turn(wakeups[k].nextAttempt, k)))
  }

  /** The first turns, in order, name the selected rows. */
  lemma FirstTurnsSelected(wakeups: map<Id, Wakeup>, locked: set<Id>, limit: nat, now: Time, turns: seq<Turn>,
      rows: seq<Id>)
    requires Ordering.StrictlyAscending(TurnBefore, turns)
    requires forall t :: t in turns <==> t in Turns(wakeups, locked, now)
    requires |rows| == if |turns| < limit then |turns| else limit
    requires forall i | 0 <= i < |rows| :: rows[i] == turns[i].id
    ensures Selected(wakeups, locked, limit, now, rows)
  {
    forall i | 0 <= i < |turns|
      ensures turns[i].id in wakeups && turns[i].id !in locked && Due(wakeups[turns[i].id], now)
      ensures turns[i] == Turn(wakeups[turns[i].id].nextAttempt, turns[i].id)
    {
      assert turns[i] in turns;
    }
    forall i | 0 <= i < |rows| ensures turns[i].id in rows { assert rows[i] in rows; }
    forall k | k in wakeups && k !in locked && k !in rows && Due(wakeups[k], now)
      ensures |rows| == limit
      ensures forall i | 0 <= i < |rows| ::
        TurnBefore(Turn(wakeups[rows[i]].nextAttempt, rows[i]), Turn(wakeups[k].nextAttempt, k))
    {
      assert Turn(wakeups[k].nextAttempt, k) in turns;
      var n :| 0 <= n < |turns| && turns[n] == Turn(wakeups[k].nextAttempt, k);
      assert n >= |rows|;
    }
  }

  function Leased(w: Wakeup, token: Token, until: Time): Wakeup {
    w.(status := WakeupLeased, token := Some(token), expires := Some(until), dispatches := w.dispatches + 1)
  }

  function LeaseAll(wakeups: map<Id, Wakeup>, rows: seq<Id>, tokens: seq<Token>, until: Time): map<Id, Wakeup>
    requires |rows| == |tokens| && forall i | 0 <= i < |rows| :: rows[i] in wakeups
  {
    if rows == [] then wakeups
    else
      var n := |rows| - 1;
      var before := LeaseAll(wakeups, rows[..n], tokens[..n], until);
      if rows[n] in before then before[rows[n] := Leased(before[rows[n]], tokens[n], until)] else before
  }

  function ClaimedWakeup(wakeups: map<Id, Wakeup>, id: Id, token: Token): (Id, Queue, Id, Token)
    requires id in wakeups
  {
    (id, wakeups[id].queue, wakeups[id].entity, token)
  }

  /** Rows that are still to be leased are as they were. */
  lemma {:induction false} LeaseLeaves(wakeups: map<Id, Wakeup>, rows: seq<Id>, tokens: seq<Token>, until: Time, id: Id)
    requires |rows| == |tokens| && (forall i | 0 <= i < |rows| :: rows[i] in wakeups) && id in wakeups && id !in rows
    ensures id in LeaseAll(wakeups, rows, tokens, until) && LeaseAll(wakeups, rows, tokens, until)[id] == wakeups[id]
  {
    if rows != [] { LeaseLeaves(wakeups, rows[..|rows| - 1], tokens[..|rows| - 1], until, id); }
  }

  lemma LeaseNext(wakeups: map<Id, Wakeup>, rows: seq<Id>, tokens: seq<Token>, until: Time, n: nat)
    requires |rows| == |tokens| && (forall i | 0 <= i < |rows| :: rows[i] in wakeups) && n < |rows|
    requires forall i, j | 0 <= i < j < |rows| :: rows[i] != rows[j]
    ensures
      var before, row := LeaseAll(wakeups, rows[..n], tokens[..n], until), wakeups[rows[n]];
      && rows[n] in before && before[rows[n]] == row
      && LeaseAll(wakeups, rows[..n + 1], tokens[..n + 1], until) == before[rows[n] := Leased(row, tokens[n], until)]
  {
    assert rows[n] !in rows[..n];
    LeaseLeaves(wakeups, rows[..n], tokens[..n], until, rows[n]);
    assert rows[..n + 1][..n] == rows[..n] && tokens[..n + 1][..n] == tokens[..n];
  }

  predicate Releases(wakeups: map<Id, Wakeup>, id: Id, token: Token) {
    id in wakeups && wakeups[id].status.WakeupLeased? && wakeups[id].token == Some(token)
  }

  function AfterRelease(wakeups: map<Id, Wakeup>, id: Id, token: Token, next: Time,
      dispatched: Option<Time>): map<Id, Wakeup> {
    if !Releases(wakeups, id, token) then wakeups
    else
      var w := wakeups[id];
      wakeups[id := w.(status := WakeupPending, nextAttempt := next, token := None, expires := None,
                       lastDispatched := if dispatched.Some? then dispatched else w.lastDispatched)]
  }

  function Ended(w: Wakeup, now: Time): Wakeup {
    w.(status := WakeupCompleted, token := None, expires := None, completedAt := Some(now))
  }

  function Rescheduled(w: Wakeup, at: Time): Wakeup {
    w.(status := WakeupPending, nextAttempt := at, token := None, expires := None, completedAt := None)
  }

  /** `_set_wakeup_terminal` */
  function EndWakeups(wakeups: map<Id, Wakeup>, id: Id, now: Time): map<Id, Wakeup> {
    map k | k in wakeups :: if wakeups[k].Serves(id) then Ended(wakeups[k], now) else wakeups[k]
  }

  /** `_reschedule_wakeup` */
  function RescheduleWakeups(wakeups: map<Id, Wakeup>, id: Id, at: Time): map<Id, Wakeup> {
    map k | k in wakeups :: if wakeups[k].Serves(id) then Rescheduled(wakeups[k], at) else wakeups[k]
  }

  // ---------------------------------------------------------------- claiming

  datatype Claimed = Claimed(id: Id, range: Id, channel: Id, low: int, high: int, watermark: int, attempts: int,
    token: Token)

  predicate Eligible(e: Execution, now: Time) {
    || e.status.Pending?
    || (e.status.RetryWait? && e.nextRetry.Some? && e.nextRetry.value <= now)
    || (e.status.Running? && e.expires.Some? && e.expires.value <= now)
  }

  predicate Claimable(db: Db, id: Id, now: Time) {
    id in db.executions && db.executions[id].range in db.ranges && Eligible(db.executions[id], now)
  }

  function Taken(e: Execution, token: Token, now: Time, until: Time): Execution {
    e.(status := Running, attempts := e.attempts + 1, nextRetry := None, token := Some(token), expires := Some(until),
       startedAt := if e.startedAt.Some? then e.startedAt else Some(now))
  }

  const LEASE_EXPIRED := "LEASE_EXPIRED"
  const WORKER_LEASE_EXPIRED := "WorkerLeaseExpired"

  function Ending(e: Execution, failure: Failure): Execution {
    e.(status := Failed, nextRetry := None, token := None, expires := None, failure := Some(failure))
  }

  function FailRange(ranges: map<Id, Range>, id: Id): map<Id, Range> {
    if id in ranges then ranges[id := ranges[id].(status := RangeFailed)] else ranges
  }

  function AfterFailure(db: Db, id: Id, failure: Failure): Db
    requires id in db.executions
  {
    db.(executions := db.executions[id := Ending(db.executions[id], failure)],
        ranges := FailRange(db.ranges, db.executions[id].range),
        wakeups := EndWakeups(db.wakeups, id, failure.at))
  }

  function AfterClaim(db: Db, id: Id, token: Token, now: Time, until: Time): Db {
    if !Claimable(db, id, now) then db
    else if db.executions[id].attempts >= db.executions[id].maxAttempts then
      AfterFailure(db, id, Failure(LEASE_EXPIRED, WORKER_LEASE_EXPIRED, now))
    else db.(executions := db.executions[id := Taken(db.executions[id], token, now, until)])
  }

  predicate Claims(db: Db, id: Id, now: Time) {
    Claimable(db, id, now) && db.executions[id].attempts < db.executions[id].maxAttempts
  }

  function ClaimOf(db: Db, id: Id, token: Token): Claimed
    requires id in db.executions && db.executions[id].range in db.ranges
  {
    var e := db.executions[id];
    Claimed(id, e.range, db.ranges[e.range].channel, e.low, e.high, e.watermark, e.attempts + 1, token)
  }

  // ---------------------------------------------------------------- progress by lease

  /** `_locked_active_row`: the caller's token still holds the unexpired lease. */
  predicate Holds(db: Db, id: Id, token: Token, now: Time) {
    && id in db.executions
    && var e := db.executions[id];
    e.status.Running? && e.token == Some(token) && e.expires.Some? && e.expires.value > now
  }

  predicate Advances(db: Db, id: Id, token: Token, mark: int, now: Time) {
    Holds(db, id, token, now) && db.executions[id].watermark <= mark <= db.executions[id].high
  }

  function AfterAdvance(db: Db, id: Id, token: Token, mark: int, now: Time): Db {
    if !Advances(db, id, token, mark, now) then db
    else db.(executions := db.executions[id := db.executions[id].(watermark := mark)])
  }

  predicate RangeAwaits(r: Range, e: Execution) {
    (r.watermark.Some? || r.start.Some?) && Progress(r) == e.low && r.activeHigh == Some(e.high)
  }

  predicate Completes(db: Db, id: Id, token: Token, now: Time) {
    && Holds(db, id, token, now)
    && var e := db.executions[id];
    e.watermark == e.high && e.range in db.ranges && RangeAwaits(db.ranges[e.range], e)
  }

  function Finished(e: Execution, now: Time): Execution {
    e.(status := Completed, token := None, expires := None, completedAt := Some(now))
  }

  function Moved(r: Range, to: int): Range {
    r.(watermark := Some(to), activeHigh := None,
       status := if r.endMode.Fixed? && Some(to) == r.fixedEnd then RangeCompleted else RangeActive)
  }

  function AfterComplete(db: Db, id: Id, token: Token, now: Time): Db {
    if !Completes(db, id, token, now) then db
    else
      var e := db.executions[id];
      db.(executions := db.executions[id := Finished(e, now)],
          ranges := db.ranges[e.range := Moved(db.ranges[e.range], e.high)],
          wakeups := EndWakeups(db.wakeups, id, now))
  }

  function Waiting(e: Execution, failure: Failure, at: Time): Execution {
    e.(status := RetryWait, nextRetry := Some(at), token := None, expires := None, failure := Some(failure))
  }

  predicate Retries(db: Db, id: Id, retryable: bool) {
    id in db.executions && retryable && db.executions[id].attempts < db.executions[id].maxAttempts
  }

  function AfterFail(db: Db, id: Id, token: Token, failure: Failure, retryable: bool, retryAt: Time): Db {
    if !Holds(db, id, token, failure.at) then db
    else if Retries(db, id, retryable) then
      db.(executions := db.executions[id := Waiting(db.executions[id], failure, retryAt)],
          wakeups := RescheduleWakeups(db.wakeups, id, retryAt))
    else AfterFailure(db, id, failure)
  }

  // ---------------------------------------------------------------- the repositories

  class Repository {
    var channels: map<Id, Channel>
    var ranges: map<Id, Range>
    var executions: map<Id, Execution>
    var wakeups: map<Id, Wakeup>

    ghost function State(): Db
      reads this
    {
      Db(channels, ranges, executions, wakeups)
    }

    /** `create_execution_and_wakeup`; the wake-up's primary key is drawn by the caller. */
    method CreateExecutionAndWakeup(w: Window, wakeup: Id, availableAt: Time) returns (created: bool)
      modifies this`ranges, this`executions, this`wakeups
      ensures State() == AfterFreeze(old(State()), w, wakeup, availableAt)
      ensures created <==> old(Freezes(State(), w))
    {
      if w.range !in ranges || ranges[w.range].channel !in channels { return false; }
      var r := ranges[w.range];
      var channel := channels[r.channel];
      if !channel.enabled || !r.enabled || !(r.status.RangePending? || r.status.RangeActive?) || r.activeHigh.Some?
         || r.start.None? || channel.profile != Some(w.profile)
      {
        return false;
      }
      var from := if r.watermark.Some? then r.watermark.value else r.start.value - 1;
      if w.low != from || w.high <= from || (r.endMode.Fixed? && Some(w.high) != r.fixedEnd) { return false; }
      if InsertConflict(executions, w) { return false; }
      executions := executions[w.id := Frozen(w)];
      ranges := ranges[w.range := r.(activeHigh := Some(w.high), status := RangeActive)];
      wakeups := wakeups[wakeup := NewWakeup(RangeExecutions, w.id, availableAt)];
      created := true;
    }

    /** `due_wakeup_claim_statement`; `locked` are the rows that other transactions hold and the statement skips. */
    method DueWakeups(locked: set<Id>, limit: nat, now: Time) returns (rows: seq<Id>)
      ensures Selected(wakeups, locked, limit, now, rows)
    {
      TurnOrder();
      var turns := Ordering.InOrder(TurnBefore, Turns(wakeups, locked, now));
      var count := if |turns| < limit then |turns| else limit;
      rows := seq(count, i requires 0 <= i < count => turns[i].id);
      FirstTurnsSelected(wakeups, locked, limit, now, turns, rows);
    }

    /** `claim_due`, with one fresh token for each row up to the limit. */
    method ClaimDue(locked: set<Id>, limit: nat, tokens: seq<Token>, now: Time, lease: int)
        returns (ghost rows: seq<Id>, claims: seq<(Id, Queue, Id, Token)>)
      requires |tokens| == limit
      modifies this`wakeups
      ensures Selected(old(wakeups), locked, limit, now, rows)
      ensures wakeups == LeaseAll(old(wakeups), rows, tokens[..|rows|], now + lease)
      ensures |claims| == |rows|
      ensures forall i | 0 <= i < |rows| :: claims[i] == ClaimedWakeup(old(wakeups), rows[i], tokens[i])
    {
      var due := DueWakeups(locked, limit, now);
      rows := due;
      claims := LeaseRows(due, tokens[..|due|], now, lease);
    }

    method LeaseRows(rows: seq<Id>, tokens: seq<Token>, now: Time, lease: int)
        returns (claims: seq<(Id, Queue, Id, Token)>)
      requires |rows| == |tokens|
      requires forall i | 0 <= i < |rows| :: rows[i] in wakeups && Due(wakeups[rows[i]], now)
      requires forall i, j | 0 <= i < j < |rows| :: rows[i] != rows[j]
      modifies this`wakeups
      ensures wakeups == LeaseAll(old(wakeups), rows, tokens, now + lease)
      ensures |claims| == |rows|
      ensures forall i | 0 <= i < |rows| :: claims[i] == ClaimedWakeup(old(wakeups), rows[i], tokens[i])
    {
      claims := [];
      ghost var before := wakeups;
      for n := 0 to |rows|
        invariant wakeups == LeaseAll(before, rows[..n], tokens[..n], now + lease)
        invariant |claims| == n && forall i | 0 <= i < n :: claims[i] == ClaimedWakeup(before, rows[i], tokens[i])
      {
        LeaseNext(before, rows, tokens, now + lease, n);
        var row := wakeups[rows[n]];
        wakeups := wakeups[rows[n] := Leased(row, tokens[n], now + lease)];
        claims := claims + [(rows[n], row.queue, row.entity, tokens[n])];
      }
      assert rows[..|rows|] == rows && tokens[..|tokens|] == tokens;
    }

    method ReleaseClaim(id: Id, token: Token, next: Time, dispatched: Option<Time>) returns (released: bool)
      modifies this`wakeups
      ensures wakeups == AfterRelease(old(wakeups), id, token, next, dispatched)
      ensures released <==> old(Releases(wakeups, id, token))
    {
      if id !in wakeups || !wakeups[id].status.WakeupLeased? || wakeups[id].token != Some(token) { return false; }
      var row := wakeups[id].(status := WakeupPending, nextAttempt := next, token := None, expires := None);
      if dispatched.Some? { row := row.(lastDispatched := dispatched); }
      wakeups := wakeups[id := row];
      released := true;
    }

    /** `acknowledge_dispatch` */
    method AcknowledgeDispatch(id: Id, token: Token, now: Time, repairAfter: Time) returns (released: bool)
      modifies this`wakeups
      ensures wakeups == AfterRelease(old(wakeups), id, token, repairAfter, Some(now))
      ensures released <==> old(Releases(wakeups, id, token))
    {
      released := ReleaseClaim(id, token, repairAfter, Some(now));
    }

    /** `reschedule_after_failure` */
    method RescheduleAfterFailure(id: Id, token: Token, retryAfter: Time) returns (released: bool)
      modifies this`wakeups
      ensures wakeups == AfterRelease(old(wakeups), id, token, retryAfter, None)
      ensures released <==> old(Releases(wakeups, id, token))
    {
      released := ReleaseClaim(id, token, retryAfter, None);
    }

    /**
     * `claim_execution`: a stored execution with attempts left is claimed exactly when it is pending, its retry time
     * has come or its lease has ended, and then runs under the new lease.
     */
    method ClaimExecution(id: Id, token: Token, now: Time, lease: int) returns (claim: Option<Claimed>)
      modifies this`executions, this`ranges, this`wakeups
      ensures State() == AfterClaim(old(State()), id, token, now, now + lease)
      ensures claim.Some? <==> old(
        && id in executions && executions[id].range in ranges && executions[id].attempts < executions[id].maxAttempts
        && (|| executions[id].status.Pending?
            || (executions[id].status.RetryWait? && executions[id].nextRetry.Some?
                && executions[id].nextRetry.value <= now)
            || (executions[id].status.Running? && executions[id].expires.Some?
                && executions[id].expires.value <= now)))
      ensures claim.Some? ==>
        && id in executions && executions[id].status.Running? && executions[id].token == Some(token)
        && executions[id].expires == Some(now + lease) && executions[id].attempts == old(executions[id].attempts) + 1
        && (forall k | k in executions && k != id :: k in old(executions) && executions[k] == old(executions)[k])
        && ranges == old(ranges) && wakeups == old(wakeups)
      ensures claim.Some? ==>
        var e := executions[id];
        claim.value == Claimed(id, e.range, ranges[e.range].channel, e.low, e.high, e.watermark, e.attempts, token)
    {
      if id !in executions || executions[id].range !in ranges { return None; }
      var row := executions[id];
      if row.status.Completed? || row.status.Failed? { return None; }
      var eligible :=
        || row.status.Pending?
        || (row.status.RetryWait? && row.nextRetry.Some? && row.nextRetry.value <= now)
        || (row.status.Running? && row.expires.Some? && row.expires.value <= now);
      if !eligible { return None; }
      if row.attempts >= row.maxAttempts {
        TerminalizeExhaustedLease(id, now);
        return None;
      }
      row := row.(status := Running, attempts := row.attempts + 1, nextRetry := None, token := Some(token),
                  expires := Some(now + lease));
      if row.startedAt.None? { row := row.(startedAt := Some(now)); }
      executions := executions[id := row];
      claim := Some(Claimed(
        id, row.range, ranges[row.range].channel, row.low, row.high, row.watermark, row.attempts, token));
    }

    method AdvanceWatermark(id: Id, token: Token, mark: int, now: Time) returns (advanced: bool)
      modifies this`executions
      ensures State() == AfterAdvance(old(State()), id, token, mark, now)
      ensures advanced <==> old(Advances(State(), id, token, mark, now))
    {
      var held := LockedActiveRow(id, token, now);
      if !held || !(executions[id].watermark <= mark <= executions[id].high) { return false; }
      executions := executions[id := executions[id].(watermark := mark)];
      advanced := true;
    }

    method CompleteExecution(id: Id, token: Token, now: Time) returns (completed: bool)
      modifies this`executions, this`ranges, this`wakeups
      ensures State() == AfterComplete(old(State()), id, token, now)
      ensures completed <==> old(Completes(State(), id, token, now))
    {
      var held := LockedActiveRow(id, token, now);
      if !held || executions[id].watermark != executions[id].high { return false; }
      var row := executions[id];
      if row.range !in ranges { return false; }
      var r := ranges[row.range];
      if r.watermark.None? && r.start.None? { return false; }
      var expected := if r.watermark.Some? then r.watermark.value else r.start.value - 1;
      if expected != row.low || r.activeHigh != Some(row.high) { return false; }
      executions := executions[id :=
        row.(status := Completed, token := None, expires := None, completedAt := Some(now))];
      r := r.(watermark := Some(row.high), activeHigh := None,
              status := if r.endMode.Fixed? && Some(row.high) == r.fixedEnd then RangeCompleted else RangeActive);
      ranges := ranges[row.range := r];
      SetWakeupTerminal(id, now);
      completed := true;
    }

    method FailExecution(id: Id, token: Token, failure: Failure, retryable: bool, retryAt: Time)
        returns (recorded: bool)
      modifies this`executions, this`ranges, this`wakeups
      ensures State() == AfterFail(old(State()), id, token, failure, retryable, retryAt)
      ensures recorded <==> old(Holds(State(), id, token, failure.at))
    {
      var held := LockedActiveRow(id, token, failure.at);
      if !held { return false; }
      var row := executions[id].(failure := Some(failure), token := None, expires := None);
      if retryable && row.attempts < row.maxAttempts {
        executions := executions[id := row.(status := RetryWait, nextRetry := Some(retryAt))];
        RescheduleWakeup(id, retryAt);
      } else {
        executions := executions[id := row.(status := Failed, nextRetry := None)];
        if row.range in ranges { ranges := ranges[row.range := ranges[row.range].(status := RangeFailed)]; }
        SetWakeupTerminal(id, failure.at);
      }
      recorded := true;
    }

    method LockedActiveRow(id: Id, token: Token, now: Time) returns (held: bool)
      ensures held <==> Holds(State(), id, token, now)
    {
      if id !in executions { return false; }
      var e := executions[id];
      held := e.status.Running? && e.token == Some(token) && e.expires.Some? && e.expires.value > now;
    }

    method SetWakeupTerminal(id: Id, now: Time)
      modifies this`wakeups
      ensures wakeups == EndWakeups(old(wakeups), id, now)
    {
      wakeups := map k | k in wakeups ::
        if wakeups[k].Serves(id)
          then wakeups[k].(status := WakeupCompleted, token := None, expires := None, completedAt := Some(now))
        else wakeups[k];
    }

    method RescheduleWakeup(id: Id, at: Time)
      modifies this`wakeups
      ensures wakeups == RescheduleWakeups(old(wakeups), id, at)
    {
      wakeups := map k | k in wakeups ::
        if wakeups[k].Serves(id)
        then wakeups[k].(status := WakeupPending, nextAttempt := at, token := None, expires := None,
                         completedAt := None)
        else wakeups[k];
    }

    method TerminalizeExhaustedLease(id: Id, now: Time)
      requires id in executions
      modifies this`executions, this`ranges, this`wakeups
      ensures State() == AfterFailure(old(State()), id, Failure(LEASE_EXPIRED, WORKER_LEASE_EXPIRED, now))
    {
      var row := executions[id];
      executions := executions[id :=
        row.(status := Failed, nextRetry := None, token := None, expires := None,
             failure := Some(Failure("LEASE_EXPIRED", "WorkerLeaseExpired", now)))];
      if row.range in ranges { ranges := ranges[row.range := ranges[row.range].(status := RangeFailed)]; }
      SetWakeupTerminal(id, now);
    }
  }
}
