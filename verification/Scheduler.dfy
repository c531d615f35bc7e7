/** The range scheduler and the wake-up dispatcher, as clients of the repositories. */
module Scheduler {
  import opened Json
  import opened Leases
  import opened RangeStore

  /** The newest message of a channel and when it was published. */
  datatype Boundary = Boundary(message: int, publishedAt: Time)

  /** A row `list_enabled_ranges` returns. */
  predicate Listed(db: Db, range: Id) {
    && range in db.ranges
    && var r := db.ranges[range];
    && r.enabled && (r.status.RangePending? || r.status.RangeActive?) && r.activeHigh.None? && r.start.Some?
    && r.channel in db.channels && db.channels[r.channel].enabled && db.channels[r.channel].profile.Some?
    && (r.endMode.Fixed? ==> r.fixedEnd.Some?)
  }

  /** The right bound to freeze at: the fixed end, or the newest message once it has been quiet long enough. */
  function RightBound(r: Range, newest: Option<Boundary>, now: Time): Option<int> {
    match r.endMode
    case Fixed => r.fixedEnd
    case Latest =>
      if newest.Some? && r.steadyAfter.Some? && now >= newest.value.publishedAt + r.steadyAfter.value
        then Some(newest.value.message)
      else None
  }

  /** The window `schedule` asks for, if any. */
  function Plan(db: Db, range: Id, id: Id, newest: Option<Boundary>, maxAttempts: int, now: Time): Option<Window>
    requires Listed(db, range)
  {
    var r := db.ranges[range];
    var to := RightBound(r, newest, now);
    if to.None? || to.value <= Progress(r) then None
    else Some(Window(id, range, db.channels[r.channel].profile.value, Progress(r), to.value, maxAttempts))
  }

  /**
   * A planned window may be frozen as long as the rows it was planned from are
   * unchanged; only the unique indexes could refuse it.
   */
  lemma PlannedMayFreeze(db: Db, range: Id, id: Id, newest: Option<Boundary>, maxAttempts: int, now: Time)
    requires Listed(db, range)
    ensures Plan(db, range, id, newest, maxAttempts, now).Some? ==>
      MayFreeze(db, Plan(db, range, id, newest, maxAttempts, now).value)
  {
  }

  /** A plan drawn from one state of a range is refused in another, unless both agree on where the range stands. */
  lemma StalePlanRefused(before: Db, after: Db, range: Id, id: Id, newest: Option<Boundary>, maxAttempts: int,
      now: Time)
    requires Listed(before, range) && Plan(before, range, id, newest, maxAttempts, now).Some?
    requires MayFreeze(after, Plan(before, range, id, newest, maxAttempts, now).value)
    ensures range in after.ranges && after.ranges[range].activeHigh.None? && after.ranges[range].start.Some?
      && Progress(after.ranges[range]) == Progress(before.ranges[range])
  {
  }

  datatype Report = Report(scanned: nat, created: nat)

  /** What the loop needs to know of one scanned range: fresh identifiers and the boundary source's answer. */
  datatype Scan = Scan(range: Id, id: Id, wakeup: Id, newest: Option<Boundary>)

  /** The state after the scanned ranges have been frozen one after the other. */
  function Scheduled(listed: Db, scans: seq<Scan>, maxAttempts: int, now: Time): Db
    requires forall i | 0 <= i < |scans| :: Listed(listed, scans[i].range)
  {
    if scans == [] then listed
    else
      var before, s := Scheduled(listed, scans[..|scans| - 1], maxAttempts, now), scans[|scans| - 1];
      match Plan(listed, s.range, s.id, s.newest, maxAttempts, now)
      case None => before
      case Some(w) => AfterFreeze(before, w, s.wakeup, now)
  }

  /** How many of the windows asked for were admitted when their turn came. */
  function Created(listed: Db, scans: seq<Scan>, maxAttempts: int, now: Time): nat
    requires forall i | 0 <= i < |scans| :: Listed(listed, scans[i].range)
  {
    if scans == [] then 0
    else
      var earlier, s := scans[..|scans| - 1], scans[|scans| - 1];
      var plan := Plan(listed, s.range, s.id, s.newest, maxAttempts, now);
      Created(listed, earlier, maxAttempts, now)
      + if plan.Some? && Freezes(Scheduled(listed, earlier, maxAttempts, now), plan.value) then 1 else 0
  }

  /** One execution row more for each creation counted. */
  lemma {:induction false} CreatedAreRows(listed: Db, scans: seq<Scan>, maxAttempts: int, now: Time)
    requires forall i | 0 <= i < |scans| :: Listed(listed, scans[i].range)
    ensures |Scheduled(listed, scans, maxAttempts, now).executions|
      == |listed.executions| + Created(listed, scans, maxAttempts, now)
  {
    if scans != [] {
      CreatedAreRows(listed, scans[..|scans| - 1], maxAttempts, now);
    }
  }

  method Schedule(repository: Repository, scans: seq<Scan>, maxAttempts: int, now: Time) returns (report: Report)
    requires forall i | 0 <= i < |scans| :: Listed(repository.State(), scans[i].range)
    modifies repository
    ensures repository.State() == Scheduled(old(repository.State()), scans, maxAttempts, now)
    ensures report.scanned == |scans| && report.created == Created(old(repository.State()), scans, maxAttempts, now)
  {
    var ranges, channels := repository.ranges, repository.channels;
    ghost var listed := repository.State();
    var created := 0;
    for n := 0 to |scans|
      invariant repository.State() == Scheduled(listed, scans[..n], maxAttempts, now)
      invariant created == Created(listed, scans[..n], maxAttempts, now)
    {
      var s := scans[n];
      var r := ranges[s.range];
      assert Listed(listed, s.range);
      assert scans[..n + 1][..n] == scans[..n];
      var from := if r.watermark.Some? then r.watermark.value else r.start.value - 1;
      var to: Option<int> := r.fixedEnd;
      if r.endMode.Latest? {
        if s.newest.None? || r.steadyAfter.None? || now < s.newest.value.publishedAt + r.steadyAfter.value { continue; }
        to := Some(s.newest.value.message);
      }
      if to.None? || to.value <= from { continue; }
      var window := Window(s.id, s.range, channels[r.channel].profile.value, from, to.value, maxAttempts);
      var done := repository.CreateExecutionAndWakeup(window, s.wakeup, now);
      if done { created := created + 1; }
    }
    assert scans[..|scans|] == scans;
    report := Report(|scans|, created);
  }

  datatype DispatchReport = DispatchReport(claimed: nat, dispatched: nat, failed: nat)

  /** Where a dispatched or undeliverable wake-up is left: released, due again after the repair or the retry delay. */
  predicate Returned(before: Wakeup, after: Wakeup, delivered: bool, now: Time, repair: int, delay: int) {
    && after.status.WakeupPending? && after.token.None? && after.expires.None?
    && after.queue == before.queue && after.entity == before.entity && after.dispatches == before.dispatches + 1
    && after.nextAttempt == now + (if delivered then repair else delay)
    && after.lastDispatched == if delivered then Some(now) else before.lastDispatched
  }

  function AfterSettling(wakeups: map<Id, Wakeup>, id: Id, token: Token, delivered: bool, now: Time, repair: int,
      delay: int): map<Id, Wakeup> {
    if delivered then AfterRelease(wakeups, id, token, now + repair, Some(now))
      else AfterRelease(wakeups, id, token, now + delay, None)
  }

  /** One round of the dispatch loop: acknowledge what the broker took, put off what it refused. */
  method Settle(repository: Repository, id: Id, token: Token, delivered: bool, now: Time, repair: int, delay: int)
    modifies repository`wakeups
    ensures repository.wakeups == AfterSettling(old(repository.wakeups), id, token, delivered, now, repair, delay)
  {
    if delivered {
      var _ := repository.AcknowledgeDispatch(id, token, now, now + repair);
    } else {
      var _ := repository.RescheduleAfterFailure(id, token, now + delay);
    }
  }

  lemma SettledReturns(before: Wakeup, wakeups: map<Id, Wakeup>, id: Id, token: Token, until: Time, delivered: bool,
      now: Time, repair: int, delay: int)
    requires id in wakeups && wakeups[id] == Leased(before, token, until)
    ensures var after := AfterSettling(wakeups, id, token, delivered, now, repair, delay);
      && after.Keys == wakeups.Keys && Returned(before, after[id], delivered, now, repair, delay)
      && forall k | k in wakeups && k != id :: after[k] == wakeups[k]
  {
  }

  /** The first `n` claimed rows are settled, the rest still leased, and no other row changed. */
  ghost predicate SettledTo(before: map<Id, Wakeup>, current: map<Id, Wakeup>, d: Dispatch, n: nat)
    requires d.Valid(before) && n <= |d.rows|
  {
    && current.Keys == before.Keys
    && (forall i | 0 <= i < n ::
      Returned(before[d.rows[i]], current[d.rows[i]], d.delivered[i], d.now, d.repair, d.delay))
    && (forall i | n <= i < |d.rows| :: current[d.rows[i]] == Leased(before[d.rows[i]], d.tokens[i], d.now + d.lease))
    && (forall k | k in current && k !in d.rows :: current[k] == before[k])
  }

  /** The rows a dispatcher run selected, the tokens it drew, and which of them the broker took. */
  datatype Dispatch = Dispatch(rows: seq<Id>, tokens: seq<Token>, delivered: seq<bool>, now: Time, lease: int,
    repair: int, delay: int)
  {
    ghost predicate Valid(wakeups: map<Id, Wakeup>) {
      && |rows| == |tokens| == |delivered|
      && (forall i | 0 <= i < |rows| :: rows[i] in wakeups && Due(wakeups[rows[i]], now))
      && (forall i, j | 0 <= i < j < |rows| :: rows[i] != rows[j])
    }
  }

  lemma SettleStep(before: map<Id, Wakeup>, current: map<Id, Wakeup>, d: Dispatch, n: nat)
    requires d.Valid(before) && n < |d.rows| && SettledTo(before, current, d, n)
    ensures SettledTo(before,
      AfterSettling(current, d.rows[n], d.tokens[n], d.delivered[n], d.now, d.repair, d.delay), d, n + 1)
  {
    SettledReturns(before[d.rows[n]], current, d.rows[n], d.tokens[n], d.now + d.lease, d.delivered[n], d.now,
      d.repair, d.delay);
  }

  lemma NothingSettled(before: map<Id, Wakeup>, d: Dispatch)
    requires d.Valid(before)
    ensures SettledTo(before, LeaseAll(before, d.rows, d.tokens, d.now + d.lease), d, 0)
  {
    LeasedRows(before, d.rows, d.tokens, d.now + d.lease);
  }

  function Delivered(rows: seq<Id>, taken: set<Id>): (delivered: seq<bool>)
    ensures |delivered| == |rows|
  {
    seq(|rows|, i requires 0 <= i < |rows| => rows[i] in taken)
  }

  /**
   * `dispatch_due` claims the first due wake-ups up to the limit and leaves none of them leased: each is pending
   * again, due after the repair interval if the broker took it, else after the retry delay.
   */
  method DispatchDue(
      repository: Repository, locked: set<Id>, limit: nat, tokens: seq<Token>, taken: set<Id>, now: Time, lease: int,
        repair: int, delay: int)
      returns (report: DispatchReport, ghost d: Dispatch)
    requires |tokens| == limit
    modifies repository`wakeups
    ensures Selected(old(repository.wakeups), locked, limit, now, d.rows)
    ensures |d.rows| <= limit
    ensures d == Dispatch(d.rows, tokens[..|d.rows|], Delivered(d.rows, taken), now, lease, repair, delay)
    ensures report.claimed == |d.rows| == report.dispatched + report.failed
    ensures d.Valid(old(repository.wakeups)) && SettledTo(old(repository.wakeups), repository.wakeups, d, |d.rows|)
  {
    ghost var before := repository.wakeups;
    ghost var rows;
    var claims;
    rows, claims := repository.ClaimDue(locked, limit, tokens, now, lease);
    d := Dispatch(rows, tokens[..|rows|], Delivered(rows, taken), now, lease, repair, delay);
    NothingSettled(before, d);
    var dispatched, failed := 0, 0;
    for n := 0 to |claims|
      invariant dispatched + failed == n
      invariant SettledTo(before, repository.wakeups, d, n)
    {
      SettleStep(before, repository.wakeups, d, n);
      var delivered := claims[n].0 in taken;
      Settle(repository, claims[n].0, claims[n].3, delivered, now, repair, delay);
      if delivered { dispatched := dispatched + 1; } else { failed := failed + 1; }
    }
    report := DispatchReport(|claims|, dispatched, failed);
  }

  lemma {:induction false} LeasedRows(wakeups: map<Id, Wakeup>, rows: seq<Id>, tokens: seq<Token>, until: Time)
    requires |rows| == |tokens| && (forall i | 0 <= i < |rows| :: rows[i] in wakeups)
    requires forall i, j | 0 <= i < j < |rows| :: rows[i] != rows[j]
    ensures var after := LeaseAll(wakeups, rows, tokens, until);
      && after.Keys == wakeups.Keys
      && (forall i | 0 <= i < |rows| :: after[rows[i]] == Leased(wakeups[rows[i]], tokens[i], until))
      && (forall k | k in wakeups && k !in rows :: after[k] == wakeups[k])
  {
    if rows != [] {
      var n := |rows| - 1;
      LeasedRows(wakeups, rows[..n], tokens[..n], until);
      assert rows[n] !in rows[..n];
    }
  }
}
