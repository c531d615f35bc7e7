/** What every transaction on ranges, executions and wake-ups keeps. */
module RangeProtocol {
  import opened Json
  import opened Leases
  import opened RangeStore

  // ---------------------------------------------------------------- the database invariant

  predicate ExecutionChecks(e: Execution) {
    && 0 <= e.low < e.high
    && e.low <= e.watermark <= e.high
    && 0 < e.maxAttempts && 0 <= e.attempts <= e.maxAttempts
    && (e.status.Completed? ==> e.watermark == e.high && e.completedAt.Some?)
    && (if e.status.Running? then e.token.Some? && e.expires.Some? else e.token.None? && e.expires.None?)
    && (e.status.RetryWait? <==> e.nextRetry.Some?)
    && (e.status.RetryWait? || e.status.Failed? ==> e.failure.Some?)
  }

  predicate RangeChecks(r: Range) {
    && (match r.endMode
        case Fixed => r.endAt.Some? && r.steadyAfter.None?
        case Latest => r.endAt.None? && r.steadyAfter.Some? && r.steadyAfter.value > 0)
    && (r.endAt.Some? ==> r.endAt.value > r.startAt)
    && (r.start.Some? ==> r.start.value > 0)
    && (r.fixedEnd.Some? ==> r.fixedEnd.value > 0)
    && (r.watermark.Some? ==> r.watermark.value >= 0)
    && (r.activeHigh.Some? ==> r.activeHigh.value > 0)
    && (r.watermark.Some? && r.activeHigh.Some? ==> r.watermark.value <= r.activeHigh.value)
    && (r.watermark.Some? && r.start.Some? ==> r.watermark.value >= r.start.value - 1)
    && (r.endMode.Fixed? && r.watermark.Some? && r.fixedEnd.Some? ==> r.watermark.value <= r.fixedEnd.value)
  }

  predicate WakeupChecks(w: Wakeup) {
    && w.dispatches >= 0
    && if w.status.WakeupLeased? then w.token.Some? && w.expires.Some? else w.token.None? && w.expires.None?
  }

  predicate Checks(db: Db) {
    && (forall id | id in db.executions :: ExecutionChecks(db.executions[id]))
    && (forall id | id in db.ranges :: RangeChecks(db.ranges[id]))
    && (forall id | id in db.wakeups :: WakeupChecks(db.wakeups[id]))
  }

  /** The unique constraints and partial unique indexes, and the foreign keys. */
  predicate Uniques(db: Db) {
    && (forall a, b |
          a in db.executions && b in db.executions && a != b &&
          db.executions[a].range == db.executions[b].range ::
          !(db.executions[a].low == db.executions[b].low && db.executions[a].high == db.executions[b].high)
          && !(Active(db.executions[a]) && Active(db.executions[b])))
    && (forall a, b | a in db.wakeups && b in db.wakeups && a != b ::
          db.wakeups[a].queue != db.wakeups[b].queue || db.wakeups[a].entity != db.wakeups[b].entity)
    && (forall id | id in db.executions :: db.executions[id].range in db.ranges)
  }

  /** Where a row of a range stands: completed behind the watermark, anything else right at it. */
  predicate Placed(r: Range, e: Execution) {
    && r.start.Some?
    && if e.status.Completed? then r.start.value - 1 <= e.low && e.high <= Progress(r)
       else e.low == Progress(r) && r.activeHigh == Some(e.high)
  }

  predicate Covers(db: Db, range: Id, id: Id, m: int) {
    && id in db.executions && db.executions[id].range == range && db.executions[id].status.Completed?
    && db.executions[id].low < m <= db.executions[id].high
  }

  ghost predicate Covered(db: Db, range: Id, m: int) { exists id :: Covers(db, range, id, m) }

  predicate Unfinished(db: Db, range: Id, id: Id) {
    id in db.executions && db.executions[id].range == range && !db.executions[id].status.Completed?
  }

  ghost predicate AllPlaced(db: Db, range: Id)
    requires range in db.ranges
  {
    forall id | id in db.executions && db.executions[id].range == range :: Placed(db.ranges[range], db.executions[id])
  }

  ghost predicate OneUnfinished(db: Db, range: Id) {
    forall a, b | Unfinished(db, range, a) && Unfinished(db, range, b) :: a == b
  }

  ghost predicate Disjoint(db: Db, range: Id) {
    forall a, b, m | Covers(db, range, a, m) && Covers(db, range, b, m) :: a == b
  }

  ghost predicate AllCovered(db: Db, range: Id)
    requires range in db.ranges
  {
    var r := db.ranges[range];
    r.start.Some? ==> forall m | r.start.value <= m <= Progress(r) :: Covered(db, range, m)
  }

  /** `id` is the one unfinished execution of the range: the active window, starting at the watermark. */
  ghost predicate IsActiveWindow(db: Db, range: Id, id: Id)
    requires range in db.ranges
  {
    && Unfinished(db, range, id) && (forall x | Unfinished(db, range, x) :: x == id)
    && db.ranges[range].start.Some? && db.executions[id].low == Progress(db.ranges[range])
    && db.ranges[range].activeHigh == Some(db.executions[id].high)
  }

  /** What the columns of a range say by themselves. */
  predicate Shaped(r: Range) {
    && (r.start.None? ==> r.watermark.None? && r.activeHigh.None?)
    && (r.start.Some? ==> Progress(r) >= r.start.value - 1)
    && (r.endMode.Fixed? ==>
      (r.activeHigh.Some? ==> r.activeHigh == r.fixedEnd) && (r.watermark.Some? ==> r.watermark == r.fixedEnd))
  }

  /**
   * The completed windows of a range tile what lies behind its watermark,
   * and the one unfinished window is its active one.
   */
  ghost predicate Tiled(db: Db, range: Id)
    requires range in db.ranges
  {
    && Shaped(db.ranges[range])
    && AllPlaced(db, range) && OneUnfinished(db, range) && Disjoint(db, range) && AllCovered(db, range)
    && (db.ranges[range].activeHigh.Some? ==> exists id :: Unfinished(db, range, id))
  }

  ghost predicate AllTiled(db: Db) { forall range | range in db.ranges :: Tiled(db, range) }

  /** The wake-up of an execution, which is completed exactly when the execution is over. */
  predicate WakesUp(db: Db, wake: Id, id: Id) {
    && wake in db.wakeups && id in db.executions
    && db.wakeups[wake].queue.RangeExecutions? && db.wakeups[wake].entity == id
    && !db.wakeups[wake].status.WakeupCancelled?
    && (db.wakeups[wake].status.WakeupCompleted? <==> db.executions[id].Terminal())
  }

  ghost predicate Woken(db: Db) {
    && (forall id | id in db.executions :: exists wake :: WakesUp(db, wake, id))
    && (forall wake | wake in db.wakeups && db.wakeups[wake].queue.RangeExecutions? ::
      WakesUp(db, wake, db.wakeups[wake].entity))
  }

  ghost predicate DbInv(db: Db) {
    Checks(db) && Uniques(db) && Woken(db) && AllTiled(db) && AttemptsLeft(db)
  }

  // ---------------------------------------------------------------- tiling, one change at a time

  predicate SameTile(e: Execution, f: Execution) {
    e.range == f.range && e.low == f.low && e.high == f.high && (e.status.Completed? <==> f.status.Completed?)
  }

  /** The executions of a range are the same rows, none of them newly completed. */
  predicate SameTiles(db: Db, v: Db, range: Id) {
    && (forall id | id in v.executions && v.executions[id].range == range ::
      id in db.executions && db.executions[id].range == range)
    && (forall id | id in db.executions && db.executions[id].range == range ::
      id in v.executions && SameTile(db.executions[id], v.executions[id]))
  }

  lemma TiledStill(db: Db, v: Db, range: Id)
    requires range in db.ranges && range in v.ranges && Tiled(db, range) && SameTiles(db, v, range)
    requires v.ranges[range] == db.ranges[range].(status := v.ranges[range].status, enabled := v.ranges[range].enabled)
    ensures Tiled(v, range)
  {
    var r := db.ranges[range];
    forall id | id in v.executions && v.executions[id].range == range
      ensures Placed(v.ranges[range], v.executions[id])
    {
      assert Placed(r, db.executions[id]) && SameTile(db.executions[id], v.executions[id]);
    }
    forall a, b | Unfinished(v, range, a) && Unfinished(v, range, b) ensures a == b {
      assert Unfinished(db, range, a) && Unfinished(db, range, b);
    }
    forall a, b, m | Covers(v, range, a, m) && Covers(v, range, b, m) ensures a == b {
      assert Covers(db, range, a, m) && Covers(db, range, b, m);
    }
    forall m | r.start.Some? && r.start.value <= m <= Progress(r) ensures Covered(v, range, m) {
      assert Covered(db, range, m);
      var id :| Covers(db, range, id, m);
      assert Covers(v, range, id, m);
    }
    if r.activeHigh.Some? {
      var id :| Unfinished(db, range, id);
      assert Unfinished(v, range, id);
    }
  }

  /** With no active window every execution of the range is completed. */
  lemma NoneUnfinished(db: Db, range: Id, id: Id)
    requires range in db.ranges && Tiled(db, range) && id in db.executions && db.executions[id].range == range
    ensures db.ranges[range].activeHigh.None? ==> db.executions[id].status.Completed?
    ensures db.executions[id].low < Progress(db.ranges[range]) ==> db.executions[id].status.Completed?
  {
    assert Placed(db.ranges[range], db.executions[id]);
  }

  /** A window that may be frozen never meets a unique index. */
  lemma InsertNeverConflicts(db: Db, w: Window)
    requires DbInv(db) && w.id !in db.executions && MayFreeze(db, w)
    ensures !InsertConflict(db.executions, w)
  {
    forall id | id in db.executions && db.executions[id].range == w.range
      ensures !Active(db.executions[id]) && db.executions[id].high <= w.low
    {
      NoneUnfinished(db, w.range, id);
      assert Tiled(db, w.range) && Placed(db.ranges[w.range], db.executions[id]);
    }
    assert forall id | id in db.executions :: ExecutionChecks(db.executions[id]);
  }

  lemma FreezePlaces(db: Db, w: Window, wakeup: Id, at: Time)
    requires DbInv(db) && Freezes(db, w) && w.id !in db.executions
    ensures var v := AfterFreeze(db, w, wakeup, at); AllPlaced(v, w.range) && OneUnfinished(v, w.range)
  {
    var v := AfterFreeze(db, w, wakeup, at);
    assert Tiled(db, w.range);
    forall id | id in v.executions && v.executions[id].range == w.range && id != w.id
      ensures Placed(v.ranges[w.range], v.executions[id]) && v.executions[id].status.Completed?
    {
      NoneUnfinished(db, w.range, id);
      assert Placed(db.ranges[w.range], db.executions[id]);
    }
  }

  /** Rows that keep covering what they covered, and nothing else, keep the cover and its disjointness. */
  lemma CoversStill(db: Db, v: Db, range: Id)
    requires range in db.ranges && range in v.ranges && db.ranges[range].start == v.ranges[range].start
    requires db.ranges[range].watermark == v.ranges[range].watermark
    requires forall id, m :: Covers(db, range, id, m) <==> Covers(v, range, id, m)
    ensures Disjoint(db, range) ==> Disjoint(v, range)
    ensures AllCovered(db, range) ==> AllCovered(v, range)
  {
    forall m | Covered(db, range, m) ensures Covered(v, range, m) {
      var id :| Covers(db, range, id, m);
      assert Covers(v, range, id, m);
    }
    if Disjoint(db, range) {
      forall a, b, m | Covers(v, range, a, m) && Covers(v, range, b, m) ensures a == b {
        assert Covers(db, range, a, m) && Covers(db, range, b, m);
      }
    }
  }

  lemma FreezeTiles(db: Db, w: Window, wakeup: Id, at: Time)
    requires DbInv(db) && Freezes(db, w) && w.id !in db.executions
    ensures Tiled(AfterFreeze(db, w, wakeup, at), w.range)
  {
    var v := AfterFreeze(db, w, wakeup, at);
    assert Tiled(db, w.range);
    FreezePlaces(db, w, wakeup, at);
    CoversStill(db, v, w.range);
    assert Unfinished(v, w.range, w.id);
  }

  /**
   * The completion guard on the range never fires: an execution that
   * reached its right bound under its lease completes.
   */
  lemma CompletionNeverRefused(db: Db, id: Id, token: Token, now: Time)
    requires DbInv(db) && Holds(db, id, token, now) && db.executions[id].watermark == db.executions[id].high
    ensures Completes(db, id, token, now)
  {
    var e := db.executions[id];
    assert Tiled(db, e.range) && Placed(db.ranges[e.range], e);
  }

  lemma CompletePlaces(db: Db, id: Id, token: Token, now: Time)
    requires DbInv(db) && Completes(db, id, token, now)
    ensures var v, range := AfterComplete(db, id, token, now), db.executions[id].range;
      && Shaped(v.ranges[range]) && AllPlaced(v, range) && OneUnfinished(v, range)
  {
    var e := db.executions[id];
    var v, range := AfterComplete(db, id, token, now), e.range;
    assert Tiled(db, range) && Placed(db.ranges[range], e) && Unfinished(db, range, id) && ExecutionChecks(e);
    forall a | a in v.executions && v.executions[a].range == range
      ensures Placed(v.ranges[range], v.executions[a]) && v.executions[a].status.Completed?
    {
      assert Placed(db.ranges[range], db.executions[a]);
      assert Unfinished(db, range, a) ==> a == id;
    }
  }

  /** A completed execution covers its own window, which begins where the others end. */
  lemma CompleteCovers(db: Db, id: Id, token: Token, now: Time, a: Id, m: int)
    requires DbInv(db) && Completes(db, id, token, now)
    ensures var v, e := AfterComplete(db, id, token, now), db.executions[id];
      Covers(v, e.range, a, m) <==> (Covers(db, e.range, a, m) && m <= e.low) || (a == id && e.low < m <= e.high)
  {
    var e := db.executions[id];
    assert Tiled(db, e.range);
    if Covers(db, e.range, a, m) { assert Placed(db.ranges[e.range], db.executions[a]); }
  }

  lemma CompleteTiles(db: Db, id: Id, token: Token, now: Time)
    requires DbInv(db) && Completes(db, id, token, now)
    ensures Tiled(AfterComplete(db, id, token, now), db.executions[id].range)
  {
    var e := db.executions[id];
    var v, range := AfterComplete(db, id, token, now), e.range;
    CompletePlaces(db, id, token, now);
    assert Tiled(db, range) && Placed(db.ranges[range], e);
    forall a, m
      ensures Covers(v, range, a, m) <==> (Covers(db, range, a, m) && m <= e.low) || (a == id && e.low < m <= e.high)
    {
      CompleteCovers(db, id, token, now, a, m);
    }
    forall m | v.ranges[range].start.value <= m <= e.high ensures Covered(v, range, m) {
      if m <= e.low {
        assert Covered(db, range, m);
        var a :| Covers(db, range, a, m);
        assert Covers(v, range, a, m);
      } else {
        assert Covers(v, range, id, m);
      }
    }
  }

  // ---------------------------------------------------------------- constraints and wake-ups, one change at a time

  /** Only execution `id` changed, into a row its constraints allow and that is active only if it was. */
  ghost predicate RowChanged(db: Db, v: Db, id: Id) {
    && id in db.executions && id in v.executions && v.executions == db.executions[id := v.executions[id]]
    && v.channels == db.channels
    && var e, f := db.executions[id], v.executions[id];
    && f.range == e.range && f.low == e.low && f.high == e.high && (Active(f) ==> Active(e))
    && ExecutionChecks(f) && (f.attempts == f.maxAttempts ==> f.status.Running? || f.Terminal())
  }

  /** The wake-ups of `id` follow its row, and no other wake-up changes. */
  ghost predicate WakeupsFollow(db: Db, v: Db, id: Id) {
    && v.wakeups.Keys == db.wakeups.Keys
    && id in v.executions
    && forall k | k in v.wakeups ::
         var w, x := db.wakeups[k], v.wakeups[k];
         && x.queue == w.queue && x.entity == w.entity && WakeupChecks(x)
         && if w.Serves(id)
           then !x.status.WakeupCancelled? && (x.status.WakeupCompleted? <==> v.executions[id].Terminal()) else x == w
  }

  lemma WokenStill(db: Db, v: Db, id: Id)
    requires Woken(db) && RowChanged(db, v, id) && WakeupsFollow(db, v, id)
    ensures Woken(v)
  {
    forall x, k | WakesUp(db, k, x) ensures WakesUp(v, k, x) {
      assert db.wakeups[k].Serves(x);
    }
    forall x | x in v.executions ensures exists k :: WakesUp(v, k, x) {
      var k :| WakesUp(db, k, x);
      assert WakesUp(v, k, x);
    }
    forall k | k in v.wakeups && v.wakeups[k].queue.RangeExecutions? ensures WakesUp(v, k, v.wakeups[k].entity) {
      assert WakesUp(db, k, db.wakeups[k].entity);
    }
  }

  lemma ConstraintsStill(db: Db, v: Db, id: Id)
    requires Checks(db) && Uniques(db) && RowChanged(db, v, id) && WakeupsFollow(db, v, id)
    requires v.ranges.Keys == db.ranges.Keys && forall r | r in v.ranges :: RangeChecks(v.ranges[r])
    ensures Checks(v) && Uniques(v)
  {
    forall a, b | a in v.executions && b in v.executions && a != b && v.executions[a].range == v.executions[b].range
      ensures !(v.executions[a].low == v.executions[b].low && v.executions[a].high == v.executions[b].high)
      ensures !(Active(v.executions[a]) && Active(v.executions[b]))
    {
      assert db.executions[a].range == db.executions[b].range;
    }
    forall x | x in v.executions ensures ExecutionChecks(v.executions[x]) {
      assert ExecutionChecks(db.executions[x]);
    }
  }

  lemma RowKeepsTiles(db: Db, v: Db, id: Id, r: Id)
    requires r in db.ranges && r in v.ranges && Tiled(db, r) && RowChanged(db, v, id)
    requires db.executions[id].range != r
      || (v.executions[id].status.Completed? <==> db.executions[id].status.Completed?)
    requires v.ranges[r] == db.ranges[r].(status := v.ranges[r].status)
    ensures Tiled(v, r)
  {
    TiledStill(db, v, r);
  }

  predicate AttemptsLeft(db: Db) {
    forall id | id in db.executions && db.executions[id].attempts == db.executions[id].maxAttempts ::
      db.executions[id].status.Running? || db.executions[id].Terminal()
  }

  predicate OnlyStatusChanged(ranges: map<Id, Range>, after: map<Id, Range>) {
    after.Keys == ranges.Keys && forall r | r in after :: after[r] == ranges[r].(status := after[r].status)
  }

  lemma RangeChecksStill(ranges: map<Id, Range>, after: map<Id, Range>)
    requires OnlyStatusChanged(ranges, after) && forall r | r in ranges :: RangeChecks(ranges[r])
    ensures forall r | r in after :: RangeChecks(after[r])
  {
    forall r | r in after ensures RangeChecks(after[r]) { assert RangeChecks(ranges[r]); }
  }

  lemma TilesStill(db: Db, v: Db, id: Id)
    requires AllTiled(db) && RowChanged(db, v, id) && OnlyStatusChanged(db.ranges, v.ranges)
    requires v.executions[id].status.Completed? <==> db.executions[id].status.Completed?
    ensures AllTiled(v)
  {
    forall r | r in v.ranges ensures Tiled(v, r) {
      assert Tiled(db, r);
      RowKeepsTiles(db, v, id, r);
    }
  }

  lemma AttemptsStill(db: Db, v: Db, id: Id)
    requires AttemptsLeft(db) && RowChanged(db, v, id)
    ensures AttemptsLeft(v)
  {
  }

  /**
   * A transaction that changes one row short of completing it, and at
   * most the status of ranges, keeps the invariant.
   */
  lemma RowStep(db: Db, v: Db, id: Id)
    requires DbInv(db) && RowChanged(db, v, id) && WakeupsFollow(db, v, id)
    requires v.executions[id].status.Completed? <==> db.executions[id].status.Completed?
    requires OnlyStatusChanged(db.ranges, v.ranges)
    ensures DbInv(v)
  {
    RangeChecksStill(db.ranges, v.ranges);
    ConstraintsStill(db, v, id);
    WokenStill(db, v, id);
    TilesStill(db, v, id);
    AttemptsStill(db, v, id);
  }

  lemma WakeupsUnchanged(db: Db, v: Db, id: Id)
    requires DbInv(db) && RowChanged(db, v, id) && v.wakeups == db.wakeups
    requires v.executions[id].Terminal() <==> db.executions[id].Terminal()
    ensures WakeupsFollow(db, v, id)
  {
    forall k | k in v.wakeups && v.wakeups[k].Serves(id)
      ensures v.wakeups[k].status.WakeupCompleted? <==> v.executions[id].Terminal()
    {
      assert WakesUp(db, k, db.wakeups[k].entity);
    }
  }

  lemma ClaimKeeps(db: Db, id: Id, token: Token, now: Time, until: Time)
    requires DbInv(db)
    ensures DbInv(AfterClaim(db, id, token, now, until))
    ensures Claimable(db, id, now) && !Claims(db, id, now) ==>
      db.executions[id].status.Running? && db.executions[id].expires.value <= now
  {
    var v := AfterClaim(db, id, token, now, until);
    if Claimable(db, id, now) {
      assert ExecutionChecks(db.executions[id]);
      if Claims(db, id, now) {
        WakeupsUnchanged(db, v, id);
        RowStep(db, v, id);
      } else {
        FailureKeeps(db, id, Failure(LEASE_EXPIRED, WORKER_LEASE_EXPIRED, now));
      }
    }
  }

  lemma FailureChanges(db: Db, id: Id, failure: Failure)
    requires Checks(db) && id in db.executions && db.executions[id].status.Running?
    ensures var v := AfterFailure(db, id, failure);
      RowChanged(db, v, id) && WakeupsFollow(db, v, id) && OnlyStatusChanged(db.ranges, v.ranges)
  {
    assert ExecutionChecks(db.executions[id]);
    assert forall k | k in db.wakeups :: WakeupChecks(db.wakeups[k]);
  }

  lemma FailureKeeps(db: Db, id: Id, failure: Failure)
    requires DbInv(db) && id in db.executions && db.executions[id].status.Running?
    ensures DbInv(AfterFailure(db, id, failure))
  {
    FailureChanges(db, id, failure);
    RowStep(db, AfterFailure(db, id, failure), id);
  }

  lemma AdvanceKeeps(db: Db, id: Id, token: Token, mark: int, now: Time)
    requires DbInv(db)
    ensures DbInv(AfterAdvance(db, id, token, mark, now))
  {
    if Advances(db, id, token, mark, now) {
      var v := AfterAdvance(db, id, token, mark, now);
      assert ExecutionChecks(db.executions[id]);
      WakeupsUnchanged(db, v, id);
      RowStep(db, v, id);
    }
  }

  lemma FailKeeps(db: Db, id: Id, token: Token, failure: Failure, retryable: bool, retryAt: Time)
    requires DbInv(db)
    ensures DbInv(AfterFail(db, id, token, failure, retryable, retryAt))
  {
    if Holds(db, id, token, failure.at) {
      var v := AfterFail(db, id, token, failure, retryable, retryAt);
      assert ExecutionChecks(db.executions[id]);
      if Retries(db, id, retryable) {
        assert RowChanged(db, v, id) && WakeupsFollow(db, v, id);
        RowStep(db, v, id);
      } else {
        FailureKeeps(db, id, failure);
      }
    }
  }

  lemma MovedChecks(r: Range, e: Execution)
    requires RangeChecks(r) && Shaped(r) && ExecutionChecks(e) && RangeAwaits(r, e) && Placed(r, e)
    ensures RangeChecks(Moved(r, e.high))
  {
  }

  lemma CompleteChanges(db: Db, id: Id, token: Token, now: Time)
    requires Checks(db) && AllTiled(db) && Completes(db, id, token, now)
    ensures var v, range := AfterComplete(db, id, token, now), db.executions[id].range;
      RowChanged(db, v, id) && WakeupsFollow(db, v, id) && RangeChecks(v.ranges[range])
  {
    var v, e := AfterComplete(db, id, token, now), db.executions[id];
    assert ExecutionChecks(e) && Tiled(db, e.range) && RangeChecks(db.ranges[e.range]);
    MovedChecks(db.ranges[e.range], e);
    assert forall k | k in v.wakeups :: WakeupChecks(db.wakeups[k]);
  }

  lemma CompleteTilesAll(db: Db, id: Id, token: Token, now: Time)
    requires DbInv(db) && Completes(db, id, token, now)
    ensures AllTiled(AfterComplete(db, id, token, now))
  {
    var v, range := AfterComplete(db, id, token, now), db.executions[id].range;
    CompleteChanges(db, id, token, now);
    CompleteTiles(db, id, token, now);
    forall r | r in v.ranges && r != range ensures Tiled(v, r) {
      assert Tiled(db, r);
      RowKeepsTiles(db, v, id, r);
    }
  }

  lemma CompleteKeeps(db: Db, id: Id, token: Token, now: Time)
    requires DbInv(db)
    ensures DbInv(AfterComplete(db, id, token, now))
  {
    if Completes(db, id, token, now) {
      var v, range := AfterComplete(db, id, token, now), db.executions[id].range;
      CompleteChanges(db, id, token, now);
      forall r | r in v.ranges ensures RangeChecks(v.ranges[r]) { assert r != range ==> RangeChecks(db.ranges[r]); }
      ConstraintsStill(db, v, id);
      WokenStill(db, v, id);
      AttemptsStill(db, v, id);
      CompleteTilesAll(db, id, token, now);
    }
  }

  /** Ranges may be added and edited as long as each stays tiled by the same executions. */
  lemma TilesUnderRanges(db: Db, v: Db)
    requires AllTiled(db) && v.executions == db.executions
    requires forall r | r in db.ranges :: r in v.ranges
    requires forall r | r in db.ranges ::
      v.ranges[r] == db.ranges[r].(status := v.ranges[r].status, enabled := v.ranges[r].enabled)
    ensures forall r | r in db.ranges :: Tiled(v, r)
  {
    forall r | r in db.ranges ensures Tiled(v, r) {
      assert Tiled(db, r);
      TiledStill(db, v, r);
    }
  }

  predicate WakeupsUnique(wakeups: map<Id, Wakeup>) {
    forall a, b | a in wakeups && b in wakeups && a != b ::
      wakeups[a].queue != wakeups[b].queue || wakeups[a].entity != wakeups[b].entity
  }

  /** The wake-ups of this queue are the same rows, none newly completed, revived or cancelled. */
  predicate SameDuties(wakeups: map<Id, Wakeup>, after: map<Id, Wakeup>) {
    && (forall k | k in after && after[k].queue.RangeExecutions? :: k in wakeups && wakeups[k].queue.RangeExecutions?)
    && (forall k | k in wakeups && wakeups[k].queue.RangeExecutions? ::
          && k in after && after[k].queue.RangeExecutions? && after[k].entity == wakeups[k].entity
          && (after[k].status.WakeupCompleted? <==> wakeups[k].status.WakeupCompleted?)
          && (after[k].status.WakeupCancelled? <==> wakeups[k].status.WakeupCancelled?))
  }

  /** A transaction on wake-ups alone keeps the invariant if it neither completes nor revives one of this queue. */
  lemma WakeupStep(db: Db, after: map<Id, Wakeup>)
    requires DbInv(db) && SameDuties(db.wakeups, after) && WakeupsUnique(after)
    requires forall k | k in after :: WakeupChecks(after[k])
    ensures DbInv(db.(wakeups := after))
  {
    var v := db.(wakeups := after);
    TilesUnderRanges(db, v);
    forall k, x ensures WakesUp(db, k, x) <==> WakesUp(v, k, x) {}
    forall x | x in v.executions ensures exists k :: WakesUp(v, k, x) {
      var k :| WakesUp(db, k, x);
      assert WakesUp(v, k, x);
    }
    forall k | k in after && after[k].queue.RangeExecutions? ensures WakesUp(v, k, after[k].entity) {
      assert WakesUp(db, k, db.wakeups[k].entity);
    }
  }

  lemma {:induction false} LeaseAllRows(wakeups: map<Id, Wakeup>, rows: seq<Id>, tokens: seq<Token>, until: Time)
    requires |rows| == |tokens| && (forall i | 0 <= i < |rows| :: rows[i] in wakeups)
    requires forall k | k in wakeups :: WakeupChecks(wakeups[k])
    ensures var after := LeaseAll(wakeups, rows, tokens, until);
      && after.Keys == wakeups.Keys
      && forall k | k in after :: (
           && after[k].queue == wakeups[k].queue && after[k].entity == wakeups[k].entity && WakeupChecks(after[k])
           && if k in rows then after[k].status.WakeupLeased? && after[k].token.value in tokens
             else after[k] == wakeups[k])
  {
    if rows != [] {
      var n := |rows| - 1;
      LeaseAllRows(wakeups, rows[..n], tokens[..n], until);
      assert rows == rows[..n] + [rows[n]] && tokens == tokens[..n] + [tokens[n]];
    }
  }

  lemma ClaimDueKeeps(db: Db, rows: seq<Id>, tokens: seq<Token>, now: Time, until: Time)
    requires DbInv(db) && |rows| == |tokens|
    requires forall i | 0 <= i < |rows| :: rows[i] in db.wakeups && Due(db.wakeups[rows[i]], now)
    ensures DbInv(db.(wakeups := LeaseAll(db.wakeups, rows, tokens, until)))
  {
    LeaseAllRows(db.wakeups, rows, tokens, until);
    WakeupStep(db, LeaseAll(db.wakeups, rows, tokens, until));
  }

  lemma ReleaseChanges(wakeups: map<Id, Wakeup>, id: Id, token: Token, next: Time, dispatched: Option<Time>)
    requires WakeupsUnique(wakeups) && forall k | k in wakeups :: WakeupChecks(wakeups[k])
    ensures var after := AfterRelease(wakeups, id, token, next, dispatched);
      SameDuties(wakeups, after) && WakeupsUnique(after) && forall k | k in after :: WakeupChecks(after[k])
  {
    var after := AfterRelease(wakeups, id, token, next, dispatched);
    forall k | k in after ensures WakeupChecks(after[k]) { assert WakeupChecks(wakeups[k]); }
  }

  lemma ReleaseKeeps(db: Db, id: Id, token: Token, next: Time, dispatched: Option<Time>)
    requires DbInv(db)
    ensures DbInv(db.(wakeups := AfterRelease(db.wakeups, id, token, next, dispatched)))
  {
    ReleaseChanges(db.wakeups, id, token, next, dispatched);
    WakeupStep(db, AfterRelease(db.wakeups, id, token, next, dispatched));
  }

  lemma FreezeConstraints(db: Db, w: Window, wakeup: Id, at: Time)
    requires Checks(db) && Uniques(db) && Freezes(db, w) && wakeup !in db.wakeups && w.maxAttempts > 0
    requires Tiled(db, w.range)
    requires forall k | k in db.wakeups && db.wakeups[k].queue.RangeExecutions? :: db.wakeups[k].entity != w.id
    ensures Checks(AfterFreeze(db, w, wakeup, at)) && Uniques(AfterFreeze(db, w, wakeup, at))
  {
    var v := AfterFreeze(db, w, wakeup, at);
    assert RangeChecks(db.ranges[w.range]);
    forall id | id in v.executions ensures ExecutionChecks(v.executions[id]) {
      if id != w.id { assert ExecutionChecks(db.executions[id]); }
    }
    forall r | r in v.ranges ensures RangeChecks(v.ranges[r]) { assert RangeChecks(db.ranges[r]); }
    forall k | k in v.wakeups ensures WakeupChecks(v.wakeups[k]) {
      if k != wakeup { assert WakeupChecks(db.wakeups[k]); }
    }
  }

  lemma FreezeWakes(db: Db, w: Window, wakeup: Id, at: Time)
    requires Woken(db) && Freezes(db, w) && wakeup !in db.wakeups
    ensures Woken(AfterFreeze(db, w, wakeup, at))
  {
    var v := AfterFreeze(db, w, wakeup, at);
    forall k, x | WakesUp(db, k, x) ensures WakesUp(v, k, x) {}
    forall x | x in v.executions ensures exists k :: WakesUp(v, k, x) {
      if x == w.id {
        assert WakesUp(v, wakeup, x);
      } else {
        var k :| WakesUp(db, k, x);
        assert WakesUp(v, k, x);
      }
    }
    forall k | k in v.wakeups && v.wakeups[k].queue.RangeExecutions? ensures WakesUp(v, k, v.wakeups[k].entity) {
      if k != wakeup { assert WakesUp(db, k, db.wakeups[k].entity); }
    }
  }

  lemma FreezeTilesAll(db: Db, w: Window, wakeup: Id, at: Time)
    requires DbInv(db) && Freezes(db, w) && w.id !in db.executions
    ensures AllTiled(AfterFreeze(db, w, wakeup, at))
  {
    var v := AfterFreeze(db, w, wakeup, at);
    FreezeTiles(db, w, wakeup, at);
    forall r | r in v.ranges && r != w.range ensures Tiled(v, r) {
      assert Tiled(db, r);
      TiledStill(db, v, r);
    }
  }

  lemma NoWakeupYet(db: Db, id: Id)
    requires Woken(db) && id !in db.executions
    ensures forall k | k in db.wakeups && db.wakeups[k].queue.RangeExecutions? :: db.wakeups[k].entity != id
  {
    forall k | k in db.wakeups && db.wakeups[k].queue.RangeExecutions? ensures db.wakeups[k].entity != id {
      assert WakesUp(db, k, db.wakeups[k].entity);
    }
  }

  lemma FreezeKeeps(db: Db, w: Window, wakeup: Id, at: Time)
    requires DbInv(db) && w.id !in db.executions && wakeup !in db.wakeups && w.maxAttempts > 0
    ensures DbInv(AfterFreeze(db, w, wakeup, at))
  {
    if Freezes(db, w) {
      assert Tiled(db, w.range);
      NoWakeupYet(db, w.id);
      FreezeConstraints(db, w, wakeup, at);
      FreezeWakes(db, w, wakeup, at);
      FreezeTilesAll(db, w, wakeup, at);
      assert AttemptsLeft(AfterFreeze(db, w, wakeup, at));
    }
  }

  // ---------------------------------------------------------------- what operators and other components do

  /** A range as it may be inserted: nothing processed, nothing frozen. */
  predicate FreshRange(r: Range) { RangeChecks(r) && r.watermark.None? && r.activeHigh.None? }

  lemma EmptyRangeTiled(db: Db, id: Id)
    requires id in db.ranges && FreshRange(db.ranges[id])
    requires forall e | e in db.executions :: db.executions[e].range != id
    ensures Tiled(db, id)
  {
  }

  lemma AddRangeKeeps(db: Db, id: Id, r: Range)
    requires DbInv(db) && id !in db.ranges && FreshRange(r)
    ensures DbInv(db.(ranges := db.ranges[id := r]))
  {
    var v := db.(ranges := db.ranges[id := r]);
    TilesUnderRanges(db, v);
    EmptyRangeTiled(v, id);
    WokenUnder(db, v);
    assert Checks(v) && Uniques(v) && AttemptsLeft(v);
  }

  lemma WokenUnder(db: Db, v: Db)
    requires Woken(db) && v.executions == db.executions && v.wakeups == db.wakeups
    ensures Woken(v)
  {
    forall k, x ensures WakesUp(db, k, x) <==> WakesUp(v, k, x) {}
    forall x | x in v.executions ensures exists k :: WakesUp(v, k, x) {
      var k :| WakesUp(db, k, x);
      assert WakesUp(v, k, x);
    }
  }

  /** Pausing, resuming or disabling a range: any status, any flag. */
  lemma EditRangeKeeps(db: Db, id: Id, status: RangeStatus, enabled: bool)
    requires DbInv(db) && id in db.ranges
    ensures DbInv(db.(ranges := db.ranges[id := db.ranges[id].(status := status, enabled := enabled)]))
  {
    var edited := db.ranges[id].(status := status, enabled := enabled);
    var v := db.(ranges := db.ranges[id := edited]);
    TilesUnderRanges(db, v);
    WokenUnder(db, v);
    RangeReplaced(db, id, edited);
  }

  lemma RangeReplaced(db: Db, id: Id, r: Range)
    requires Checks(db) && Uniques(db) && id in db.ranges && RangeChecks(r)
    ensures Checks(db.(ranges := db.ranges[id := r])) && Uniques(db.(ranges := db.ranges[id := r]))
  {
  }

  /** Filling in message IDs that were not resolved yet. */
  predicate Resolves(r: Range, s: Range) {
    && s == r.(start := s.start, fixedEnd := s.fixedEnd)
    && (r.start.Some? ==> s.start == r.start) && (r.fixedEnd.Some? ==> s.fixedEnd == r.fixedEnd)
  }

  lemma ResolveTiles(db: Db, id: Id, s: Range)
    requires id in db.ranges && Tiled(db, id) && Resolves(db.ranges[id], s)
    ensures Tiled(db.(ranges := db.ranges[id := s]), id)
  {
    var v, r := db.(ranges := db.ranges[id := s]), db.ranges[id];
    forall a | a in v.executions && v.executions[a].range == id ensures Placed(s, v.executions[a]) {
      assert Placed(r, db.executions[a]);
    }
    forall a ensures Unfinished(db, id, a) <==> Unfinished(v, id, a) {}
    assert OneUnfinished(v, id);
    if r.start.Some? {
      CoversStill(db, v, id);
      if r.activeHigh.Some? {
        var a :| Unfinished(db, id, a);
        assert Unfinished(v, id, a);
      }
    } else {
      forall a, m ensures !Covers(v, id, a, m) { assert Covers(v, id, a, m) ==> Placed(r, db.executions[a]); }
    }
  }

  lemma ResolveKeeps(db: Db, id: Id, s: Range)
    requires DbInv(db) && id in db.ranges && Resolves(db.ranges[id], s) && RangeChecks(s)
    ensures DbInv(db.(ranges := db.ranges[id := s]))
  {
    var v := db.(ranges := db.ranges[id := s]);
    WokenUnder(db, v);
    RangeReplaced(db, id, s);
    assert AttemptsLeft(v);
    forall x | x in v.ranges ensures Tiled(v, x) {
      assert Tiled(db, x);
      if x == id { ResolveTiles(db, id, s); } else { TiledStill(db, v, x); }
    }
  }
}
