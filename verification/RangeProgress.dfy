/** What the range protocol gets done: every unfinished execution is claimed in time, and can be brought to its end. */
module RangeProgress {
  import opened Json
  import opened Leases
  import opened RangeStore
  import opened RangeProtocol
  import opened RangeRuns
  import Ordering
  import Scheduler

  // ---------------------------------------------------------------- claiming

  /** The row under a new lease: one attempt more, started when it first started. */
  predicate LeasedNow(e: Execution, v: Execution, token: Token, now: Time, until: Time) {
    && v.status.Running? && v.token == Some(token) && v.expires == Some(until) && v.nextRetry.None?
    && v.attempts == e.attempts + 1 && v.startedAt == (if e.startedAt.Some? then e.startedAt else Some(now))
    && v == e.(status := v.status, token := v.token, expires := v.expires, nextRetry := v.nextRetry,
               attempts := v.attempts, startedAt := v.startedAt)
  }

  /**
   * With attempts left an execution is claimed exactly when it is pending, its retry time has come, or its lease has
   * ended; otherwise a claim changes nothing.
   */
  lemma ClaimedExactly(w: World, v: World, id: Id, token: Token, now: Time, until: Time)
    requires Inv(w) && Next(w, Claim(id, token, now, until), v) && id in w.db.executions
    requires w.db.executions[id].attempts < w.db.executions[id].maxAttempts
    ensures var e := w.db.executions[id];
      if e.status.Pending? || (e.status.RetryWait? && e.nextRetry.Some? && e.nextRetry.value <= now)
        || (e.status.Running? && e.expires.Some? && e.expires.value <= now)
      then
        && id in v.db.executions && LeasedNow(e, v.db.executions[id], token, now, until)
        && v.db == w.db.(executions := w.db.executions[id := v.db.executions[id]])
      else v.db == w.db
  {
    assert ExecutionChecks(w.db.executions[id]);
  }

  /** In every reachable state each unfinished execution with attempts left is claimed by any claim from a time on. */
  lemma ClaimedFromSomeTime(steps: seq<Step>, worlds: seq<World>, n: nat, id: Id) returns (from: Time)
    requires IsRun(steps, worlds) && n < |worlds| && id in worlds[n].db.executions
    requires var e := worlds[n].db.executions[id];
      !e.status.Completed? && !e.status.Failed? && e.attempts < e.maxAttempts
    ensures forall token, now, until, v | Next(worlds[n], Claim(id, token, now, until), v) && now >= from ::
      id in v.db.executions && LeasedNow(worlds[n].db.executions[id], v.db.executions[id], token, now, until)
  {
    RunKeeps(steps, worlds, n);
    var e := worlds[n].db.executions[id];
    assert ExecutionChecks(e);
    from := if e.status.RetryWait? then e.nextRetry.value else if e.status.Running? then e.expires.value else 0;
    forall token, now, until, v | Next(worlds[n], Claim(id, token, now, until), v) && now >= from
      ensures id in v.db.executions && LeasedNow(e, v.db.executions[id], token, now, until)
    {
      ClaimedExactly(worlds[n], v, id, token, now, until);
    }
  }

  /** The execution is over for good: it has failed, and so have its range and its wake-ups ended. */
  predicate FailedWithRange(db: Db, v: Db, id: Id, failure: Failure)
    requires id in db.executions
  {
    var e := db.executions[id];
    && v.executions == db.executions[id :=
         e.(status := Failed, nextRetry := None, token := None, expires := None, failure := Some(failure))]
    && e.range in db.ranges && v.ranges == db.ranges[e.range := db.ranges[e.range].(status := RangeFailed)]
    && WakeupsEnded(db, v, id, failure.at) && v.channels == db.channels
  }

  /** The wake-ups of the execution are completed, those of others untouched. */
  predicate WakeupsEnded(db: Db, v: Db, id: Id, now: Time) {
    && v.wakeups.Keys == db.wakeups.Keys
    && forall k | k in db.wakeups :: v.wakeups[k] ==
         if db.wakeups[k].queue.RangeExecutions? && db.wakeups[k].entity == id && !db.wakeups[k].status.WakeupCancelled?
         then db.wakeups[k].(status := WakeupCompleted, token := None, expires := None, completedAt := Some(now))
         else db.wakeups[k]
  }

  /** Without attempts left an unfinished execution is given up by any claim once its lease has ended. */
  lemma GivenUpFromSomeTime(steps: seq<Step>, worlds: seq<World>, n: nat, id: Id) returns (from: Time)
    requires IsRun(steps, worlds) && n < |worlds| && id in worlds[n].db.executions
    requires var e := worlds[n].db.executions[id];
      !e.status.Completed? && !e.status.Failed? && e.attempts >= e.maxAttempts
    ensures forall token, now, until, v | Next(worlds[n], Claim(id, token, now, until), v) ::
      if now >= from then FailedWithRange(worlds[n].db, v.db, id, Failure("LEASE_EXPIRED", "WorkerLeaseExpired", now))
      else v.db == worlds[n].db
  {
    RunKeeps(steps, worlds, n);
    var e := worlds[n].db.executions[id];
    assert ExecutionChecks(e);
    from := e.expires.value;
  }

  // ---------------------------------------------------------------- working under a lease

  /** The lease as the row states it. */
  predicate Under(e: Execution, token: Token, now: Time) {
    e.status.Running? && e.token == Some(token) && e.expires.Some? && e.expires.value > now
  }

  /** Progress within the window is recorded under the unexpired lease, and under no other circumstances. */
  lemma AdvancedExactly(w: World, v: World, id: Id, token: Token, mark: int, now: Time)
    requires Inv(w) && Next(w, Advance(id, token, mark, now), v) && id in w.db.executions
    ensures var e := w.db.executions[id];
      if Under(e, token, now) && e.watermark <= mark <= e.high then
        v.db == w.db.(executions := w.db.executions[id := e.(watermark := mark)])
      else v.db == w.db
  {
  }

  /** The range has moved on to the right bound of the window, and is over when that is its fixed end. */
  predicate MovedOn(r: Range, v: Range, high: int) {
    && v.watermark == Some(high) && v.activeHigh.None?
    && (if r.endMode.Fixed? && r.fixedEnd == Some(high) then v.status.RangeCompleted? else v.status.RangeActive?)
    && v == r.(watermark := v.watermark, activeHigh := v.activeHigh, status := v.status)
  }

  /** In a reachable state an execution at its right bound completes under its lease, its range and wake-up with it. */
  lemma CompletedExactly(w: World, v: World, id: Id, token: Token, now: Time)
    requires Inv(w) && Next(w, Complete(id, token, now), v) && id in w.db.executions
    ensures var e := w.db.executions[id];
      if Under(e, token, now) && e.watermark == e.high then
        && v.db.executions == w.db.executions[id :=
             e.(status := Completed, token := None, expires := None, completedAt := Some(now))]
        && e.range in w.db.ranges && e.range in v.db.ranges
        && MovedOn(w.db.ranges[e.range], v.db.ranges[e.range], e.high)
        && v.db.ranges == w.db.ranges[e.range := v.db.ranges[e.range]]
        && WakeupsEnded(w.db, v.db, id, now) && v.db.channels == w.db.channels
      else v.db == w.db
  {
    var e := w.db.executions[id];
    if Under(e, token, now) && e.watermark == e.high { CompletionNeverRefused(w.db, id, token, now); }
  }

  /** The wake-ups of the execution are pending again for the retry time, those of others untouched. */
  predicate WakeupsPutOff(db: Db, v: Db, id: Id, at: Time) {
    && v.wakeups.Keys == db.wakeups.Keys
    && forall k | k in db.wakeups :: v.wakeups[k] ==
         if db.wakeups[k].queue.RangeExecutions? && db.wakeups[k].entity == id && !db.wakeups[k].status.WakeupCancelled?
         then db.wakeups[k].(status := WakeupPending, nextAttempt := at, token := None, expires := None,
                             completedAt := None)
         else db.wakeups[k]
  }

  lemma FailedRows(db: Db, id: Id, token: Token, failure: Failure, retryable: bool, retryAt: Time)
    requires id in db.executions && Under(db.executions[id], token, failure.at)
    ensures var e, v := db.executions[id], AfterFail(db, id, token, failure, retryable, retryAt);
      if retryable && e.attempts < e.maxAttempts then
        && v.executions == db.executions[id := e.(status := RetryWait, nextRetry := Some(retryAt), token := None,
             expires := None, failure := Some(failure))]
        && WakeupsPutOff(db, v, id, retryAt) && v.ranges == db.ranges && v.channels == db.channels
      else e.range in db.ranges ==> FailedWithRange(db, v, id, failure)
  {
  }

  /** A failure under the lease is retried exactly when it is retryable and attempts are left. */
  lemma FailedExactly(w: World, v: World, id: Id, token: Token, failure: Failure, retryable: bool, retryAt: Time)
    requires Inv(w) && Next(w, Fail(id, token, failure, retryable, retryAt), v) && id in w.db.executions
    ensures var e := w.db.executions[id];
      if !Under(e, token, failure.at) then v.db == w.db
      else if retryable && e.attempts < e.maxAttempts then
        && v.db.executions == w.db.executions[id := e.(status := RetryWait, nextRetry := Some(retryAt), token := None,
             expires := None, failure := Some(failure))]
        && WakeupsPutOff(w.db, v.db, id, retryAt) && v.db.ranges == w.db.ranges && v.db.channels == w.db.channels
      else FailedWithRange(w.db, v.db, id, failure)
  {
    var e := w.db.executions[id];
    if Under(e, token, failure.at) { FailedRows(w.db, id, token, failure, retryable, retryAt); }
    assert e.range in w.db.ranges;
  }

  // ---------------------------------------------------------------- freezing

  /** What a range asks of a window that is frozen for it, column by column. */
  predicate Admits(db: Db, window: Window) {
    && window.range in db.ranges && db.ranges[window.range].channel in db.channels
    && var r, channel := db.ranges[window.range], db.channels[db.ranges[window.range].channel];
    && channel.enabled && channel.profile == Some(window.profile)
    && r.enabled && (r.status.RangePending? || r.status.RangeActive?) && r.activeHigh.None? && r.start.Some?
    && window.low == (if r.watermark.Some? then r.watermark.value else r.start.value - 1)
    && window.high > window.low && (r.endMode.Fixed? ==> r.fixedEnd == Some(window.high))
  }

  /**
   * In a reachable state an admissible window is frozen: a pending execution, its wake-up, and the range closed to
   * others; any other window changes nothing.
   */
  lemma FrozenExactly(w: World, v: World, window: Window, wakeup: Id, at: Time)
    requires Inv(w) && Next(w, Freeze(window, wakeup, at), v)
    ensures
      if Admits(w.db, window) then
        && v.db.executions == w.db.executions[window.id := Execution(window.range, window.profile, window.low,
             window.high, window.low, Pending, 0, window.maxAttempts, None, None, None, None, None, None)]
        && v.db.ranges == w.db.ranges[window.range :=
             w.db.ranges[window.range].(activeHigh := Some(window.high), status := RangeActive)]
        && v.db.wakeups == w.db.wakeups[wakeup :=
             Wakeup(RangeExecutions, window.id, WakeupPending, at, None, None, 0, None, None)]
        && v.db.channels == w.db.channels
      else v.db == w.db
  {
    if MayFreeze(w.db, window) { InsertNeverConflicts(w.db, window); }
  }

  /** The right bound of the next window: the fixed end, or the newest message once it has been quiet long enough. */
  predicate BoundIs(r: Range, newest: Option<Scheduler.Boundary>, now: Time, high: int) {
    match r.endMode
    case Fixed => r.fixedEnd == Some(high)
    case Latest =>
      && newest.Some? && newest.value.message == high
      && r.steadyAfter.Some? && newest.value.publishedAt + r.steadyAfter.value <= now
  }

  /** The scheduler plans exactly the windows that a range admits up to its right bound. */
  lemma PlannedExactly(db: Db, window: Window, newest: Option<Scheduler.Boundary>, now: Time)
    ensures
      Admits(db, window) && BoundIs(db.ranges[window.range], newest, now, window.high) <==>
      Scheduler.Listed(db, window.range)
        && Scheduler.Plan(db, window.range, window.id, newest, window.maxAttempts, now) == Some(window)
  {
  }

  /** The scanned ranges are different, and each has its own unused identifiers. */
  ghost predicate OwnIdentifiers(db: Db, scans: seq<Scheduler.Scan>) {
    && (forall i, j | 0 <= i < j < |scans| ::
          scans[i].range != scans[j].range && scans[i].id != scans[j].id && scans[i].wakeup != scans[j].wakeup)
    && forall i | 0 <= i < |scans| :: scans[i].id !in db.executions && scans[i].wakeup !in db.wakeups
  }

  /** Up to where the range is to be processed, if there is anything new. */
  predicate Wants(r: Range, newest: Option<Scheduler.Boundary>, now: Time, high: int)
    requires r.start.Some?
  {
    BoundIs(r, newest, now, high) && high > if r.watermark.Some? then r.watermark.value else r.start.value - 1
  }

  /** The window is stored with its wake-up, and the range closed to others. */
  predicate Opened(db: Db, v: Db, s: Scheduler.Scan, high: int, maxAttempts: int, now: Time)
    requires Scheduler.Listed(db, s.range)
  {
    var r := db.ranges[s.range];
    var low := if r.watermark.Some? then r.watermark.value else r.start.value - 1;
    && s.range in v.ranges && v.ranges[s.range] == r.(activeHigh := Some(high), status := RangeActive)
    && s.id in v.executions && v.executions[s.id] == Execution(s.range, db.channels[r.channel].profile.value, low,
         high, low, Pending, 0, maxAttempts, None, None, None, None, None, None)
    && s.wakeup in v.wakeups
    && v.wakeups[s.wakeup] == Wakeup(RangeExecutions, s.id, WakeupPending, now, None, None, 0, None, None)
  }

  predicate Untouched(db: Db, v: Db, s: Scheduler.Scan)
    requires Scheduler.Listed(db, s.range)
  {
    && s.range in v.ranges && v.ranges[s.range] == db.ranges[s.range]
    && s.id !in v.executions && s.wakeup !in v.wakeups
  }

  /** The rows of a scan once its turn is over: a new window where one is wanted, else nothing. */
  ghost predicate ScanDone(db: Db, v: Db, s: Scheduler.Scan, maxAttempts: int, now: Time)
    requires Scheduler.Listed(db, s.range)
  {
    && (forall high | Wants(db.ranges[s.range], s.newest, now, high) :: Opened(db, v, s, high, maxAttempts, now))
    && ((forall high :: !Wants(db.ranges[s.range], s.newest, now, high)) ==> Untouched(db, v, s))
  }

  /** Ranges, executions and wake-ups that no scan is about stay as they are. */
  ghost predicate ScansLeave(db: Db, v: Db, scans: seq<Scheduler.Scan>) {
    && v.channels == db.channels && v.ranges.Keys == db.ranges.Keys
    && (forall k | k in db.ranges && (forall i | 0 <= i < |scans| :: scans[i].range != k) ::
          v.ranges[k] == db.ranges[k])
    && (forall k | k in db.executions :: k in v.executions && v.executions[k] == db.executions[k])
    && (forall k | k in v.executions && k !in db.executions :: exists i :: 0 <= i < |scans| && scans[i].id == k)
    && (forall k | k in db.wakeups :: k in v.wakeups && v.wakeups[k] == db.wakeups[k])
    && (forall k | k in v.wakeups && k !in db.wakeups :: exists i :: 0 <= i < |scans| && scans[i].wakeup == k)
  }

  lemma ScanFreezes(db: Db, before: Db, s: Scheduler.Scan, maxAttempts: int, now: Time)
    requires DbInv(before) && Scheduler.Listed(db, s.range)
    requires s.range in before.ranges && before.ranges[s.range] == db.ranges[s.range] && before.channels == db.channels
    requires s.id !in before.executions && s.wakeup !in before.wakeups
    ensures var plan := Scheduler.Plan(db, s.range, s.id, s.newest, maxAttempts, now);
      ScanDone(db, if plan.None? then before else AfterFreeze(before, plan.value, s.wakeup, now), s, maxAttempts, now)
  {
    var plan := Scheduler.Plan(db, s.range, s.id, s.newest, maxAttempts, now);
    if plan.Some? {
      assert MayFreeze(before, plan.value);
      InsertNeverConflicts(before, plan.value);
      assert Wants(db.ranges[s.range], s.newest, now, plan.value.high);
    }
  }

  lemma FreezeLeaves(db: Db, before: Db, scans: seq<Scheduler.Scan>, w: Window, now: Time)
    requires scans != [] && OwnIdentifiers(db, scans) && ScansLeave(db, before, scans[..|scans| - 1])
    requires w.id == scans[|scans| - 1].id && w.range == scans[|scans| - 1].range && w.range in db.ranges
    ensures ScansLeave(db, AfterFreeze(before, w, scans[|scans| - 1].wakeup, now), scans)
  {
  }

  lemma FreezeKeepsDone(db: Db, before: Db, s: Scheduler.Scan, w: Window, wakeup: Id, maxAttempts: int, now: Time)
    requires Scheduler.Listed(db, s.range) && ScanDone(db, before, s, maxAttempts, now)
    requires w.id != s.id && w.range != s.range && wakeup != s.wakeup
    ensures ScanDone(db, AfterFreeze(before, w, wakeup, now), s, maxAttempts, now)
  {
  }

  lemma FewerScans(db: Db, scans: seq<Scheduler.Scan>)
    requires scans != [] && OwnIdentifiers(db, scans)
    ensures OwnIdentifiers(db, scans[..|scans| - 1])
  {
  }

  lemma {:induction false} ScheduledLeaves(db: Db, scans: seq<Scheduler.Scan>, maxAttempts: int, now: Time)
    requires OwnIdentifiers(db, scans) && forall i | 0 <= i < |scans| :: Scheduler.Listed(db, scans[i].range)
    ensures ScansLeave(db, Scheduler.Scheduled(db, scans, maxAttempts, now), scans)
  {
    if scans != [] {
      var s, earlier := scans[|scans| - 1], scans[..|scans| - 1];
      FewerScans(db, scans);
      ScheduledLeaves(db, earlier, maxAttempts, now);
      var plan := Scheduler.Plan(db, s.range, s.id, s.newest, maxAttempts, now);
      if plan.Some? {
        FreezeLeaves(db, Scheduler.Scheduled(db, earlier, maxAttempts, now), scans, plan.value, now);
      }
    }
  }

  lemma NotScannedYet(db: Db, before: Db, scans: seq<Scheduler.Scan>)
    requires scans != [] && OwnIdentifiers(db, scans) && ScansLeave(db, before, scans[..|scans| - 1])
    requires scans[|scans| - 1].range in db.ranges
    ensures var s := scans[|scans| - 1];
      && s.range in before.ranges && before.ranges[s.range] == db.ranges[s.range]
      && s.id !in before.executions && s.wakeup !in before.wakeups && before.channels == db.channels
  {
  }

  lemma {:induction false} ScheduledKeeps(db: Db, scans: seq<Scheduler.Scan>, maxAttempts: int, now: Time)
    requires DbInv(db) && maxAttempts > 0 && OwnIdentifiers(db, scans)
    requires forall i | 0 <= i < |scans| :: Scheduler.Listed(db, scans[i].range)
    ensures DbInv(Scheduler.Scheduled(db, scans, maxAttempts, now))
  {
    if scans != [] {
      var s, earlier := scans[|scans| - 1], scans[..|scans| - 1];
      FewerScans(db, scans);
      ScheduledKeeps(db, earlier, maxAttempts, now);
      ScheduledLeaves(db, earlier, maxAttempts, now);
      NotScannedYet(db, Scheduler.Scheduled(db, earlier, maxAttempts, now), scans);
      var plan := Scheduler.Plan(db, s.range, s.id, s.newest, maxAttempts, now);
      if plan.Some? {
        FreezeKeeps(Scheduler.Scheduled(db, earlier, maxAttempts, now), plan.value, s.wakeup, now);
      }
    }
  }

  lemma LastScanDone(db: Db, scans: seq<Scheduler.Scan>, maxAttempts: int, now: Time)
    requires DbInv(db) && maxAttempts > 0 && OwnIdentifiers(db, scans) && scans != []
    requires forall i | 0 <= i < |scans| :: Scheduler.Listed(db, scans[i].range)
    ensures ScanDone(db, Scheduler.Scheduled(db, scans, maxAttempts, now), scans[|scans| - 1], maxAttempts, now)
  {
    var s, earlier := scans[|scans| - 1], scans[..|scans| - 1];
    FewerScans(db, scans);
    ScheduledKeeps(db, earlier, maxAttempts, now);
    ScheduledLeaves(db, earlier, maxAttempts, now);
    var before := Scheduler.Scheduled(db, earlier, maxAttempts, now);
    NotScannedYet(db, before, scans);
    ScanFreezes(db, before, s, maxAttempts, now);
  }

  /**
   * Scheduling freezes, for every scanned range with something new up to its right bound, the window up to there,
   * with its wake-up; where there is nothing new it changes nothing.
   */
  lemma {:induction false} ScheduledExactly(db: Db, scans: seq<Scheduler.Scan>, maxAttempts: int, now: Time, k: nat)
    requires DbInv(db) && maxAttempts > 0 && OwnIdentifiers(db, scans) && k < |scans|
    requires forall i | 0 <= i < |scans| :: Scheduler.Listed(db, scans[i].range)
    ensures ScanDone(db, Scheduler.Scheduled(db, scans, maxAttempts, now), scans[k], maxAttempts, now)
  {
    if k == |scans| - 1 {
      LastScanDone(db, scans, maxAttempts, now);
    } else {
      FewerScans(db, scans);
      ScheduledExactly(db, scans[..|scans| - 1], maxAttempts, now, k);
      LaterScanKeepsDone(db, scans, maxAttempts, now, k);
    }
  }

  lemma LaterScanKeepsDone(db: Db, scans: seq<Scheduler.Scan>, maxAttempts: int, now: Time, k: nat)
    requires OwnIdentifiers(db, scans) && k < |scans| - 1
    requires forall i | 0 <= i < |scans| :: Scheduler.Listed(db, scans[i].range)
    requires ScanDone(db, Scheduler.Scheduled(db, scans[..|scans| - 1], maxAttempts, now), scans[k], maxAttempts, now)
    ensures ScanDone(db, Scheduler.Scheduled(db, scans, maxAttempts, now), scans[k], maxAttempts, now)
  {
    var s := scans[|scans| - 1];
    var before := Scheduler.Scheduled(db, scans[..|scans| - 1], maxAttempts, now);
    var plan := Scheduler.Plan(db, s.range, s.id, s.newest, maxAttempts, now);
    if plan.Some? { FreezeKeepsDone(db, before, scans[k], plan.value, s.wakeup, maxAttempts, now); }
  }

  // ---------------------------------------------------------------- dispatching

  /** A wake-up is due when its time has come, or when the lease of the dispatcher that took it has ended. */
  predicate IsDue(w: Wakeup, now: Time) {
    || (w.status.WakeupPending? && w.nextAttempt <= now)
    || (w.status.WakeupLeased? && w.expires.Some? && w.expires.value <= now)
  }

  /** The first due rows that are not held elsewhere, by due time and then by ID. */
  ghost predicate FirstDue(wakeups: map<Id, Wakeup>, locked: set<Id>, limit: nat, now: Time, rows: seq<Id>) {
    && |rows| <= limit
    && (forall k | k in rows :: k in wakeups && k !in locked && IsDue(wakeups[k], now))
    && (forall i, j | 0 <= i < j < |rows| && rows[i] in wakeups && rows[j] in wakeups ::
          wakeups[rows[i]].nextAttempt < wakeups[rows[j]].nextAttempt
          || (wakeups[rows[i]].nextAttempt == wakeups[rows[j]].nextAttempt && rows[i] < rows[j]))
    && forall k, x | k in wakeups && k !in locked && k !in rows && IsDue(wakeups[k], now) && x in rows ::
         && |rows| == limit && x in wakeups
         && (wakeups[x].nextAttempt < wakeups[k].nextAttempt
             || (wakeups[x].nextAttempt == wakeups[k].nextAttempt && x < k))
  }

  /** Leasing a due wake-up counts one dispatch more. */
  lemma LeasedExactly(w: World, v: World, id: Id, token: Token, now: Time, until: Time)
    requires Next(w, LeaseWakeups([id], [token], now, until), v)
    ensures id in w.db.wakeups && IsDue(w.db.wakeups[id], now)
    ensures v.db == w.db.(wakeups := w.db.wakeups[id :=
      w.db.wakeups[id].(status := WakeupLeased, token := Some(token), expires := Some(until),
                        dispatches := w.db.wakeups[id].dispatches + 1)])
  {
    var rows, tokens := [id], [token];
    assert rows[0] == id && rows[..0] == [] && tokens[..0] == [];
    assert LeaseAll(w.db.wakeups, [], [], until) == w.db.wakeups;
  }

  /** A wake-up is released by the dispatcher that holds it and by no other, to be due again at the time given. */
  lemma ReleasedExactly(w: World, v: World, id: Id, token: Token, next: Time, dispatched: Option<Time>)
    requires Next(w, ReleaseWakeup(id, token, next, dispatched), v)
    ensures
      if id in w.db.wakeups && w.db.wakeups[id].status.WakeupLeased? && w.db.wakeups[id].token == Some(token) then
        v.db == w.db.(wakeups := w.db.wakeups[id :=
          w.db.wakeups[id].(status := WakeupPending, nextAttempt := next, token := None, expires := None,
            lastDispatched := match dispatched
                              case Some(_) => dispatched
                              case None => w.db.wakeups[id].lastDispatched)])
      else v.db == w.db
  {
  }

  lemma SelectedAreFirst(wakeups: map<Id, Wakeup>, locked: set<Id>, limit: nat, now: Time, rows: seq<Id>)
    requires Selected(wakeups, locked, limit, now, rows)
    ensures FirstDue(wakeups, locked, limit, now, rows)
  {
  }

  lemma EnoughForAll(wakeups: map<Id, Wakeup>, locked: set<Id>, limit: nat, now: Time, rows: seq<Id>, wake: Id)
    requires Selected(wakeups, locked, limit, now, rows) && limit >= |wakeups|
    requires wake in wakeups && wake !in locked && IsDue(wakeups[wake], now)
    ensures wake in rows
  {
    if wake !in rows {
      assert |rows| == limit;
      Ordering.DistinctCount(rows);
      Ordering.SubsetCount((set k | k in rows) + {wake}, wakeups.Keys);
    }
  }

  /**
   * In every reachable state an unfinished execution has a wake-up, and from a time on every dispatcher that is not
   * kept from the row and has room for it selects it.
   */
  lemma WokenFromSomeTime(steps: seq<Step>, worlds: seq<World>, n: nat, id: Id) returns (wake: Id, from: Time)
    requires IsRun(steps, worlds) && n < |worlds| && id in worlds[n].db.executions
    requires !worlds[n].db.executions[id].status.Completed? && !worlds[n].db.executions[id].status.Failed?
    ensures var wakeups := worlds[n].db.wakeups;
      && wake in wakeups && wakeups[wake].queue.RangeExecutions? && wakeups[wake].entity == id
      && forall locked, limit, now, rows | now >= from && wake !in locked && limit >= |wakeups|
           && Selected(wakeups, locked, limit, now, rows) :: wake in rows
  {
    RunKeeps(steps, worlds, n);
    var wakeups := worlds[n].db.wakeups;
    assert exists x :: WakesUp(worlds[n].db, x, id);
    wake :| WakesUp(worlds[n].db, wake, id);
    assert WakeupChecks(wakeups[wake]);
    from := if wakeups[wake].status.WakeupLeased? then wakeups[wake].expires.value else wakeups[wake].nextAttempt;
    forall locked, limit: nat, now, rows | now >= from && wake !in locked && limit >= |wakeups|
      && Selected(wakeups, locked, limit, now, rows) ensures wake in rows
    {
      EnoughForAll(wakeups, locked, limit, now, rows, wake);
    }
  }

  // ---------------------------------------------------------------- from any state to the end

  ghost predicate Leads(w: World, steps: seq<Step>, worlds: seq<World>) {
    && |worlds| == |steps| + 1 && worlds[0] == w
    && forall i | 0 <= i < |steps| :: Next(worlds[i], steps[i], worlds[i + 1])
  }

  /** Some steps lead from one state to the other. */
  ghost predicate Reaches(w: World, v: World) {
    exists steps, worlds :: Leads(w, steps, worlds) && worlds[|steps|] == v
  }

  lemma ReachesNext(w: World, step: Step, v: World)
    requires Next(w, step, v)
    ensures Reaches(w, v)
  {
    assert Leads(w, [step], [w, v]);
  }

  lemma ReachesOn(w: World, v: World, x: World)
    requires Reaches(w, v) && Reaches(v, x)
    ensures Reaches(w, x)
  {
    var steps, worlds :| Leads(w, steps, worlds) && worlds[|steps|] == v;
    var more, then_ :| Leads(v, more, then_) && then_[|more|] == x;
    Joined(w, steps, worlds, more, then_);
  }

  lemma Joined(w: World, steps: seq<Step>, worlds: seq<World>, more: seq<Step>, then_: seq<World>)
    requires Leads(w, steps, worlds) && Leads(worlds[|steps|], more, then_)
    ensures Reaches(w, then_[|more|])
  {
    var all, states := steps + more, worlds + then_[1..];
    forall i | 0 <= i < |all| ensures Next(states[i], all[i], states[i + 1]) {
      if i < |steps| {
        assert states[i] == worlds[i] && states[i + 1] == worlds[i + 1];
      } else {
        assert states[i] == then_[i - |steps|] && states[i + 1] == then_[i - |steps| + 1];
      }
    }
    assert Leads(w, all, states) && states[|all|] == then_[|more|];
  }

  function After(w: World, step: Step): World
    requires step.LeaseWakeups? ==>
      |step.rows| == |step.tokens| && forall i | 0 <= i < |step.rows| :: step.rows[i] in w.db.wakeups
    requires step.EditRange? ==> step.range in w.db.ranges
  {
    World(DbAfter(w.db, step), w.issued + Drawn(step),
      match EventOf(w.db, step) case Some(e) => w.log + [e] case None => w.log)
  }

  lemma ExecutionInBounds(w: World, id: Id)
    requires Inv(w) && id in w.db.executions
    ensures w.db.executions[id].low <= w.db.executions[id].watermark <= w.db.executions[id].high
  {
    assert ExecutionChecks(w.db.executions[id]);
  }

  /** The execution is completed and its range has moved on to the right bound. */
  predicate Done(db: Db, range: Id, id: Id, high: int) {
    && id in db.executions && db.executions[id].status.Completed?
    && range in db.ranges && db.ranges[range].watermark == Some(high) && db.ranges[range].activeHigh.None?
  }

  /** A claim would take the execution now. */
  predicate Ready(e: Execution, now: Time) {
    && e.attempts < e.maxAttempts
    && (e.status.Pending? || (e.status.RetryWait? && e.nextRetry.Some? && e.nextRetry.value <= now)
        || (e.status.Running? && e.expires.Some? && e.expires.value <= now))
  }

  lemma TakeReady(w: World, id: Id, token: Token, now: Time) returns (v: World)
    requires Inv(w) && id in w.db.executions && token !in w.issued && Ready(w.db.executions[id], now)
    ensures Reaches(w, v) && Inv(v)
    ensures id in v.db.executions && Under(v.db.executions[id], token, now)
    ensures var e, f := w.db.executions[id], v.db.executions[id]; f.range == e.range && f.high == e.high
  {
    var claim := Claim(id, token, now, now + 1);
    v := After(w, claim);
    ClaimedExactly(w, v, id, token, now, now + 1);
    StepKeeps(w, claim, v);
    ReachesNext(w, claim, v);
  }

  lemma AdvanceToEnd(w: World, id: Id, token: Token, now: Time) returns (v: World)
    requires Inv(w) && id in w.db.executions && Under(w.db.executions[id], token, now)
    ensures Reaches(w, v) && Inv(v)
    ensures id in v.db.executions && v.db.executions[id] == w.db.executions[id].(watermark := w.db.executions[id].high)
  {
    var e := w.db.executions[id];
    assert ExecutionChecks(e);
    var advance := Advance(id, token, e.high, now);
    v := After(w, advance);
    AdvancedExactly(w, v, id, token, e.high, now);
    StepKeeps(w, advance, v);
    ReachesNext(w, advance, v);
  }

  lemma CompleteAtEnd(w: World, id: Id, token: Token, now: Time) returns (v: World)
    requires Inv(w) && id in w.db.executions && Under(w.db.executions[id], token, now)
    requires w.db.executions[id].watermark == w.db.executions[id].high
    ensures Reaches(w, v) && Done(v.db, w.db.executions[id].range, id, w.db.executions[id].high)
  {
    var complete := Complete(id, token, now);
    v := After(w, complete);
    CompletedExactly(w, v, id, token, now);
    ReachesNext(w, complete, v);
  }

  lemma ReadyCompletes(w: World, id: Id, token: Token, now: Time) returns (v: World)
    requires Inv(w) && id in w.db.executions && token !in w.issued && Ready(w.db.executions[id], now)
    ensures Reaches(w, v) && Done(v.db, w.db.executions[id].range, id, w.db.executions[id].high)
  {
    var taken := TakeReady(w, id, token, now);
    var advanced := AdvanceToEnd(taken, id, token, now);
    v := CompleteAtEnd(advanced, id, token, now);
    ReachesOn(w, taken, advanced);
    ReachesOn(w, advanced, v);
  }

  /** From every reachable state any unfinished execution with attempts left can be completed, and its range moved. */
  lemma EveryExecutionCanComplete(steps: seq<Step>, worlds: seq<World>, n: nat, id: Id, token: Token)
      returns (v: World)
    requires IsRun(steps, worlds) && n < |worlds| && id in worlds[n].db.executions && token !in worlds[n].issued
    requires !worlds[n].db.executions[id].status.Completed? && !worlds[n].db.executions[id].status.Failed?
    requires worlds[n].db.executions[id].attempts < worlds[n].db.executions[id].maxAttempts
    ensures Reaches(worlds[n], v)
    ensures Done(v.db, worlds[n].db.executions[id].range, id, worlds[n].db.executions[id].high)
  {
    RunKeeps(steps, worlds, n);
    var e := worlds[n].db.executions[id];
    assert ExecutionChecks(e);
    var now := if e.status.RetryWait? then e.nextRetry.value else if e.status.Running? then e.expires.value else 0;
    v := ReadyCompletes(worlds[n], id, token, now);
  }

  /** From every reachable state a range that admits a window can be processed up to its right bound. */
  lemma EveryWindowCanBeProcessed(steps: seq<Step>, worlds: seq<World>, n: nat, window: Window, wakeup: Id,
      token: Token, now: Time)
      returns (v: World)
    requires IsRun(steps, worlds) && n < |worlds| && Admits(worlds[n].db, window) && token !in worlds[n].issued
    requires window.id !in worlds[n].db.executions && wakeup !in worlds[n].db.wakeups && window.maxAttempts > 0
    ensures Reaches(worlds[n], v) && Done(v.db, window.range, window.id, window.high)
  {
    RunKeeps(steps, worlds, n);
    var w, freeze := worlds[n], Freeze(window, wakeup, now);
    var frozen := After(w, freeze);
    FrozenExactly(w, frozen, window, wakeup, now);
    StepKeeps(w, freeze, frozen);
    ReachesNext(w, freeze, frozen);
    v := ReadyCompletes(frozen, window.id, token, now);
    ReachesOn(w, frozen, v);
  }
}
