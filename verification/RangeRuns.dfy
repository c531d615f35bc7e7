/**
 * Runs of the range execution protocol: any interleaving of its
 * transactions, whoever issues them and whatever their clocks say.
 */
module RangeRuns {
  import opened Json
  import opened Leases
  import opened RangeStore
  import opened RangeProtocol

  /** The rows, the tokens drawn so far, and the history of the execution rows. */
  datatype World = World(db: Db, issued: set<Token>, log: seq<Event>)

  /**
   * One committed transaction. Callers are not tracked: an advance, completion, failure or
   * release may carry any token and any time, so a worker or dispatcher that crashed, stalled
   * or was replaced is covered by the steps it might still take.
   */
  datatype Step =
    | Freeze(window: Window, wakeup: Id, at: Time)
    | LeaseWakeups(rows: seq<Id>, tokens: seq<Token>, now: Time, until: Time)
    | ReleaseWakeup(wakeup: Id, token: Token, next: Time, dispatched: Option<Time>)
    | Claim(id: Id, token: Token, now: Time, until: Time)
    | Advance(id: Id, token: Token, mark: int, now: Time)
    | Complete(id: Id, token: Token, now: Time)
    | Fail(id: Id, token: Token, failure: Failure, retryable: bool, retryAt: Time)
    | AddRange(range: Id, added: Range)
    | EditRange(range: Id, status: RangeStatus, enabled: bool)
    | ResolveRange(range: Id, resolved: Range)
    | EditChannels(channels: map<Id, Channel>)
    | EditOtherWakeups(wakeups: map<Id, Wakeup>)

  /** Fresh identifiers are fresh, and what other components write respects the table constraints. */
  ghost predicate Enabled(w: World, step: Step) {
    match step
    case Freeze(window, wakeup, _) => window.id !in w.db.executions && wakeup !in w.db.wakeups && window.maxAttempts > 0
    case LeaseWakeups(rows, tokens, now, _) =>
      && |rows| == |tokens|
        && (forall i | 0 <= i < |rows| :: rows[i] in w.db.wakeups && Due(w.db.wakeups[rows[i]], now))
      && (forall i | 0 <= i < |tokens| :: tokens[i] !in w.issued)
    case Claim(_, token, _, _) => token !in w.issued
    case AddRange(range, added) => range !in w.db.ranges && FreshRange(added)
    case EditRange(range, _, _) => range in w.db.ranges
    case ResolveRange(range, resolved) =>
      range in w.db.ranges && Resolves(w.db.ranges[range], resolved) && RangeChecks(resolved)
    case EditOtherWakeups(wakeups) =>
      && WakeupsUnique(wakeups) && (forall k | k in wakeups :: WakeupChecks(wakeups[k]))
      && (forall k | k in wakeups && wakeups[k].queue.RangeExecutions? ::
        k in w.db.wakeups && w.db.wakeups[k] == wakeups[k])
      && (forall k | k in w.db.wakeups && w.db.wakeups[k].queue.RangeExecutions? ::
        k in wakeups && w.db.wakeups[k] == wakeups[k])
    case _ => true
  }

  function DbAfter(db: Db, step: Step): Db
    requires step.LeaseWakeups? ==>
      |step.rows| == |step.tokens| && forall i | 0 <= i < |step.rows| :: step.rows[i] in db.wakeups
    requires step.EditRange? ==> step.range in db.ranges
  {
    match step
    case Freeze(window, wakeup, at) => AfterFreeze(db, window, wakeup, at)
    case LeaseWakeups(rows, tokens, _, until) => db.(wakeups := LeaseAll(db.wakeups, rows, tokens, until))
    case ReleaseWakeup(wakeup, token, next, dispatched) =>
      db.(wakeups := AfterRelease(db.wakeups, wakeup, token, next, dispatched))
    case Claim(id, token, now, until) => AfterClaim(db, id, token, now, until)
    case Advance(id, token, mark, now) => AfterAdvance(db, id, token, mark, now)
    case Complete(id, token, now) => AfterComplete(db, id, token, now)
    case Fail(id, token, failure, retryable, retryAt) => AfterFail(db, id, token, failure, retryable, retryAt)
    case AddRange(range, added) => db.(ranges := db.ranges[range := added])
    case EditRange(range, status, enabled) =>
      db.(ranges := db.ranges[range := db.ranges[range].(status := status, enabled := enabled)])
    case ResolveRange(range, resolved) => db.(ranges := db.ranges[range := resolved])
    case EditChannels(channels) => db.(channels := channels)
    case EditOtherWakeups(wakeups) => db.(wakeups := wakeups)
  }

  /** The history entry a step writes, when it changes an execution row. */
  function EventOf(db: Db, step: Step): Option<Event> {
    match step
    case Freeze(window, _, _) => if Freezes(db, window) then Some(Opened(window.id)) else None
    case Claim(id, token, now, _) =>
      if Claims(db, id, now) then Some(Acquired(id, token))
        else if Claimable(db, id, now) then Some(LeaseExhausted(id)) else None
    case Advance(id, token, mark, now) =>
      if Advances(db, id, token, mark, now) then Some(Progressed(id, token)) else None
    case Complete(id, token, now) => if Completes(db, id, token, now) then Some(Succeeded(id, token)) else None
    case Fail(id, token, failure, retryable, _) =>
      if !Holds(db, id, token, failure.at) then None
      else if Retries(db, id, retryable) then Some(BackedOff(id, token)) else Some(GaveUp(id, token))
    case _ => None
  }

  function Drawn(step: Step): set<Token> {
    match step
    case Claim(_, token, _, _) => {token}
    case LeaseWakeups(_, tokens, _, _) => set t | t in tokens
    case _ => {}
  }

  ghost predicate Next(w: World, step: Step, v: World) {
    && Enabled(w, step)
    && v.db == DbAfter(w.db, step)
    && v.issued == w.issued + Drawn(step)
    && v.log == match EventOf(w.db, step) case Some(e) => w.log + [e] case None => w.log
  }

  predicate Initial(w: World) {
    w == World(Db(map[], map[], map[], map[]), {}, [])
  }

  // ---------------------------------------------------------------- the invariant

  function PhaseOf(e: Execution): Phase {
    if e.Terminal() then Done else if e.status.Running? && e.token.Some? then Held(e.token.value) else Idle
  }

  /** Two transitions for each attempt left, and one more to leave `running`. */
  function Budget(e: Execution): int {
    if e.Terminal() then 0 else 2 * (e.maxAttempts - e.attempts) + if e.status.Running? then 1 else 0
  }

  function StandingIn(db: Db, id: Id): Standing {
    if id !in db.executions then Standing(Absent, 0, 0)
    else Standing(PhaseOf(db.executions[id]), Budget(db.executions[id]), 2 * db.executions[id].maxAttempts)
  }

  function Standings(db: Db): Id -> Standing { (id: Id) => StandingIn(db, id) }

  ghost predicate LogInv(w: World) { Recorded(w.log, w.issued, Standings(w.db)) }

  ghost predicate Inv(w: World) { DbInv(w.db) && LogInv(w) }

  // ---------------------------------------------------------------- every step keeps it

  lemma EditChannelsKeeps(db: Db, channels: map<Id, Channel>)
    requires DbInv(db)
    ensures DbInv(db.(channels := channels))
  {
    TilesUnderRanges(db, db.(channels := channels));
    WokenUnder(db, db.(channels := channels));
  }

  lemma OtherWakeupsKeep(w: World, wakeups: map<Id, Wakeup>)
    requires DbInv(w.db) && Enabled(w, EditOtherWakeups(wakeups))
    ensures DbInv(w.db.(wakeups := wakeups))
  {
    WakeupStep(w.db, wakeups);
  }

  lemma StepKeepsDb(w: World, step: Step, v: World)
    requires DbInv(w.db) && Next(w, step, v)
    ensures DbInv(v.db)
  {
    match step
    case Freeze(window, wakeup, at) => FreezeKeeps(w.db, window, wakeup, at);
    case LeaseWakeups(rows, tokens, now, until) => ClaimDueKeeps(w.db, rows, tokens, now, until);
    case ReleaseWakeup(wakeup, token, next, dispatched) => ReleaseKeeps(w.db, wakeup, token, next, dispatched);
    case Claim(id, token, now, until) => ClaimKeeps(w.db, id, token, now, until);
    case Advance(id, token, mark, now) => AdvanceKeeps(w.db, id, token, mark, now);
    case Complete(id, token, now) => CompleteKeeps(w.db, id, token, now);
    case Fail(id, token, failure, retryable, retryAt) => FailKeeps(w.db, id, token, failure, retryable, retryAt);
    case AddRange(range, added) => AddRangeKeeps(w.db, range, added);
    case EditRange(range, status, enabled) => EditRangeKeeps(w.db, range, status, enabled);
    case ResolveRange(range, resolved) => ResolveKeeps(w.db, range, resolved);
    case EditChannels(channels) => EditChannelsKeeps(w.db, channels);
    case EditOtherWakeups(wakeups) => OtherWakeupsKeep(w, wakeups);
  }

  /** The event moves its row and no other. */
  ghost predicate MovesRow(db: Db, e: Event, v: Db) {
    && Moves(StandingIn(db, e.id), e, StandingIn(v, e.id))
    && forall id | id != e.id :: StandingIn(v, id) == StandingIn(db, id)
  }

  lemma ClaimMoves(db: Db, id: Id, token: Token, now: Time, until: Time)
    requires Checks(db) && AttemptsLeft(db) && Claimable(db, id, now)
    ensures
      var event := if Claims(db, id, now) then Acquired(id, token) else LeaseExhausted(id);
      MovesRow(db, event, AfterClaim(db, id, token, now, until))
  {
    assert ExecutionChecks(db.executions[id]);
  }

  lemma AdvanceMoves(db: Db, id: Id, token: Token, mark: int, now: Time)
    requires Checks(db) && Advances(db, id, token, mark, now)
    ensures MovesRow(db, Progressed(id, token), AfterAdvance(db, id, token, mark, now))
  {
    assert ExecutionChecks(db.executions[id]);
  }

  lemma CompleteMoves(db: Db, id: Id, token: Token, now: Time)
    requires Checks(db) && Completes(db, id, token, now)
    ensures MovesRow(db, Succeeded(id, token), AfterComplete(db, id, token, now))
  {
    assert ExecutionChecks(db.executions[id]);
  }

  lemma FailMoves(db: Db, id: Id, token: Token, failure: Failure, retryable: bool, retryAt: Time)
    requires Checks(db) && Holds(db, id, token, failure.at)
    ensures MovesRow(db, if Retries(db, id, retryable) then BackedOff(id, token) else GaveUp(id, token),
      AfterFail(db, id, token, failure, retryable, retryAt))
  {
    assert ExecutionChecks(db.executions[id]);
  }

  /** A step without an event leaves the execution rows alone. */
  lemma EventFits(w: World, step: Step, v: World)
    requires DbInv(w.db) && Next(w, step, v)
    ensures match EventOf(w.db, step)
      case None => v.db.executions == w.db.executions
      case Some(e) => MovesRow(w.db, e, v.db) && (e.Acquired? ==> e.token !in w.issued && e.token in Drawn(step))
  {
    match step
    case Claim(id, token, now, until) => if Claimable(w.db, id, now) { ClaimMoves(w.db, id, token, now, until); }
    case Advance(id, token, mark, now) =>
      if Advances(w.db, id, token, mark, now) { AdvanceMoves(w.db, id, token, mark, now); }
    case Complete(id, token, now) => if Completes(w.db, id, token, now) { CompleteMoves(w.db, id, token, now); }
    case Fail(id, token, failure, retryable, retryAt) =>
      if Holds(w.db, id, token, failure.at) { FailMoves(w.db, id, token, failure, retryable, retryAt); }
    case _ =>
  }

  lemma LogFollows(w: World, event: Option<Event>, drawn: set<Token>, v: World)
    requires LogInv(w) && v.issued == w.issued + drawn
    requires match event
      case None => v.log == w.log && v.db.executions == w.db.executions
      case Some(e) =>
        v.log == w.log + [e] && MovesRow(w.db, e, v.db) && (e.Acquired? ==> e.token !in w.issued && e.token in drawn)
    ensures LogInv(v)
  {
    match event
    case Some(e) => RecordedStep(w.log, w.issued, Standings(w.db), e, drawn, Standings(v.db));
    case None => RecordedStays(w.log, w.issued, Standings(w.db), drawn, Standings(v.db));
  }

  lemma StepKeeps(w: World, step: Step, v: World)
    requires Inv(w) && Next(w, step, v)
    ensures Inv(v)
  {
    StepKeepsDb(w, step, v);
    EventFits(w, step, v);
    LogFollows(w, EventOf(w.db, step), Drawn(step), v);
  }

  ghost predicate IsRun(steps: seq<Step>, worlds: seq<World>) {
    && |worlds| == |steps| + 1 && Initial(worlds[0])
    && forall i | 0 <= i < |steps| :: Next(worlds[i], steps[i], worlds[i + 1])
  }

  lemma InitialInv(w: World)
    requires Initial(w)
    ensures Inv(w)
  {
  }

  lemma {:induction false} RunKeeps(steps: seq<Step>, worlds: seq<World>, n: nat)
    requires IsRun(steps, worlds) && n < |worlds|
    ensures Inv(worlds[n])
  {
    if n > 0 {
      RunKeeps(steps, worlds, n - 1);
      StepKeeps(worlds[n - 1], steps[n - 1], worlds[n]);
    }
  }

  // ---------------------------------------------------------------- what holds in every reachable state

  /** The completed windows of a range cover the IDs from its start to its watermark, each once, and no other ID. */
  lemma CompletedWindowsTile(steps: seq<Step>, worlds: seq<World>, n: nat, range: Id, m: int)
    requires IsRun(steps, worlds) && n < |worlds| && range in worlds[n].db.ranges
    requires worlds[n].db.ranges[range].start.Some?
    ensures var db, r := worlds[n].db, worlds[n].db.ranges[range];
      && (r.start.value - 1 < m <= Progress(r) <==> Covered(db, range, m))
      && (forall a, b | Covers(db, range, a, m) && Covers(db, range, b, m) :: a == b)
  {
    RunKeeps(steps, worlds, n);
    var db := worlds[n].db;
    assert Tiled(db, range);
    if Covered(db, range, m) {
      var id :| Covers(db, range, id, m);
      assert Placed(db.ranges[range], db.executions[id]);
    }
  }

  /**
   * `active_high` names the right bound of the single unfinished execution, which starts at the watermark, and is
   * unset when there is none.
   */
  lemma ActiveHighNamesTheUnfinished(steps: seq<Step>, worlds: seq<World>, n: nat, range: Id)
    requires IsRun(steps, worlds) && n < |worlds| && range in worlds[n].db.ranges
    ensures var db, r := worlds[n].db, worlds[n].db.ranges[range];
      && (r.activeHigh.None? <==>
        forall id | id in db.executions && db.executions[id].range == range :: db.executions[id].status.Completed?)
      && (r.activeHigh.Some? ==> exists id :: IsActiveWindow(db, range, id))
  {
    RunKeeps(steps, worlds, n);
    var db, r := worlds[n].db, worlds[n].db.ranges[range];
    assert Tiled(db, range);
    if r.activeHigh.Some? {
      var id :| Unfinished(db, range, id);
      assert Placed(r, db.executions[id]);
      assert IsActiveWindow(db, range, id);
    } else {
      forall id | id in db.executions && db.executions[id].range == range ensures db.executions[id].status.Completed? {
        NoneUnfinished(db, range, id);
      }
    }
  }

  /** Neither guard ever fires: the unique indexes never refuse a freeze, and the range never refuses a completion. */
  lemma GuardsNeverFire(steps: seq<Step>, worlds: seq<World>, n: nat, window: Window, id: Id, token: Token, now: Time)
    requires IsRun(steps, worlds) && n < |worlds|
    ensures window.id !in worlds[n].db.executions && MayFreeze(worlds[n].db, window) ==>
      !InsertConflict(worlds[n].db.executions, window)
    ensures
      Holds(worlds[n].db, id, token, now) &&
      worlds[n].db.executions[id].watermark == worlds[n].db.executions[id].high ==>
        Completes(worlds[n].db, id, token, now)
  {
    RunKeeps(steps, worlds, n);
    var db := worlds[n].db;
    if window.id !in db.executions && MayFreeze(db, window) { InsertNeverConflicts(db, window); }
    if Holds(db, id, token, now) && db.executions[id].watermark == db.executions[id].high {
      CompletionNeverRefused(db, id, token, now);
    }
  }

  /** Every CHECK and UNIQUE constraint of the three tables holds in every reachable state. */
  lemma ConstraintsHold(steps: seq<Step>, worlds: seq<World>, n: nat)
    requires IsRun(steps, worlds) && n < |worlds|
    ensures Checks(worlds[n].db) && Uniques(worlds[n].db)
  {
    RunKeeps(steps, worlds, n);
  }

  /**
   * The wake-up of an execution is completed exactly when the execution
   * is over; it exists once and is never cancelled.
   */
  lemma WakeupsFollowExecutions(steps: seq<Step>, worlds: seq<World>, n: nat, id: Id)
    requires IsRun(steps, worlds) && n < |worlds| && id in worlds[n].db.executions
    ensures var db := worlds[n].db;
      exists wake :: WakesUp(db, wake, id)
        && forall x | x in db.wakeups && db.wakeups[x].queue.RangeExecutions? && db.wakeups[x].entity == id :: x == wake
  {
    RunKeeps(steps, worlds, n);
    var db := worlds[n].db;
    var wake :| WakesUp(db, wake, id);
  }

  /**
   * A change under a lease token: the token's one claim came first, and
   * only advances under the same token lie between.
   */
  lemma LeasesFence(steps: seq<Step>, worlds: seq<World>, n: nat, k: nat, token: Token) returns (j: nat)
    requires IsRun(steps, worlds) && n < |worlds| && k < |worlds[n].log| && worlds[n].log[k].Carries(token)
    ensures var log := worlds[n].log;
      && j < k && log[j] == Acquired(log[k].id, token)
      && (forall m | j < m < k && log[m].id == log[k].id :: log[m] == Progressed(log[k].id, token))
      && (forall m | 0 <= m < |log| && log[m].Acquired? && log[m].token == token :: m == j)
  {
    RunKeeps(steps, worlds, n);
    j := Fencing(worlds[n].log, k, token);
  }

  /** At most one completion, failure for good or exhaustion per execution, and no change after it. */
  lemma EndsOnce(steps: seq<Step>, worlds: seq<World>, n: nat, k: nat)
    requires IsRun(steps, worlds) && n < |worlds| && k < |worlds[n].log| && worlds[n].log[k].Ends()
    ensures forall m | k < m < |worlds[n].log| :: worlds[n].log[m].id != worlds[n].log[k].id
    ensures worlds[n].log[k].id in worlds[n].db.executions && worlds[n].db.executions[worlds[n].log[k].id].Terminal()
  {
    RunKeeps(steps, worlds, n);
    NothingAfterEnd(worlds[n].log, k, worlds[n].log[k].id);
  }

  /** No execution makes more than twice its attempts in lifecycle transitions. */
  lemma LifecycleIsBounded(steps: seq<Step>, worlds: seq<World>, n: nat, id: Id)
    requires IsRun(steps, worlds) && n < |worlds| && id in worlds[n].db.executions
    ensures Lifecycles(worlds[n].log, id) <= 2 * worlds[n].db.executions[id].maxAttempts
  {
    RunKeeps(steps, worlds, n);
    assert ExecutionChecks(worlds[n].db.executions[id]);
  }

  /** A claim gives up on an execution only when it finds an expired lease and no attempts left. */
  lemma ExhaustionNeedsAnExpiredLease(steps: seq<Step>, worlds: seq<World>, n: nat, id: Id)
    requires IsRun(steps, worlds) && n < |steps| && steps[n].Claim?
    requires EventOf(worlds[n].db, steps[n]) == Some(LeaseExhausted(id))
    ensures var e := worlds[n].db.executions[id];
      && e.status.Running? && e.expires.Some? && e.expires.value <= steps[n].now && e.attempts == e.maxAttempts
  {
    RunKeeps(steps, worlds, n);
    assert ExecutionChecks(worlds[n].db.executions[id]);
  }
}
