/** Runs of the stage protocol: any interleaving of its transactions, with any clocks and any number of workers. */
module StageRuns {
  import opened Json
  import opened Leases
  import opened Sanitizer
  import opened StageStore
  import opened StageProtocol

  /** A cache hit as `find_cache_hit` returned it. */
  datatype Hit = Hit(source: Id, tag: CacheTag, parsed: Json)

  /**
   * The tables, the tokens drawn, the history of stage runs, the hits in
   * flight and the order in which rows succeeded.
   */
  datatype World = World(db: Db, issued: set<Token>, log: seq<Event>, hits: set<Hit>, ranks: map<Id, nat>)

  datatype Step =
    | AddMessage(message: Id, added: Message)
    | AddRun(run: Id, message: Id, mode: RunMode)
    | AddStage(id: Id, stage: StageRun)
    | Claim(id: Id, token: Token, now: Time, until: Time)
    | FindHit(id: Id, hit: Hit)
    | CommitHit(t: Target, manifest: Id, hit: Hit, ids: seq<Id>, now: Time)
    | Start(t: Target, manifest: Id, call: Id, tag: CacheTag, now: Time)
    | Commit(t: Target, call: Id, answer: Answer, ids: seq<Id>, now: Time)
    | Fail(t: Target, failure: Failure, retryAt: Time)
    | Gate(run: Id, items: seq<GateItem>, gated: seq<Id>, now: Time)
    | RollUp(run: Id, now: Time)

  /** A stage run as it may be inserted: pending, of a run that is not over and of that run's message. */
  predicate FreshStage(db: Db, s: StageRun) {
    && s.status.StagePending? && s.attempts == 0 && StageChecks(s)
    && s.run in db.runs && !db.runs[s.run].Terminal() && s.message == db.runs[s.run].message
  }

  predicate Found(db: Db, rules: Rules, id: Id, hit: Hit) {
    && hit.source != id && ExactSource(db, hit.source, hit.tag)
    && hit.parsed == Sanitize(rules, db.stages[hit.source].result.value)
  }

  function ModeOf(db: Db, stage: Id): RunMode {
    if stage in db.stages && db.stages[stage].run in db.runs then db.runs[db.stages[stage].run].mode else Formal
  }

  ghost predicate Enabled(w: World, rules: Rules, step: Step) {
    match step
    case AddMessage(message, added) => message !in w.db.messages && !added.blocked
    case AddRun(run, message, _) => run !in w.db.runs && message in w.db.messages
    case AddStage(id, stage) => id !in w.db.stages && FreshStage(w.db, stage)
    case Claim(_, token, _, _) => token !in w.issued
    case FindHit(id, hit) => Found(w.db, rules, id, hit)
    case CommitHit(_, _, hit, ids, _) => hit in w.hits && |ids| == |LabelsOf(w.db.assignments, hit.source)|
    case Commit(_, _, answer, ids, _) => |ids| == |answer.labels| && answer.document.Obj?
    case Gate(run, items, gated, _) =>
      && (forall id ::
        id in gated <==> GateApplies(w.db, run, items) && id in w.db.stages && Gated(w.db.stages[id], run, items))
      && (forall i, j | 0 <= i < j < |gated| :: gated[i] != gated[j])
    case _ => true
  }

  function DbAfter(db: Db, rules: Rules, step: Step): Db
    requires step.CommitHit? ==> |step.ids| == |LabelsOf(db.assignments, step.hit.source)|
    requires step.Commit? ==> |step.ids| == |step.answer.labels|
  {
    match step
    case AddMessage(message, added) => db.(messages := db.messages[message := added])
    case AddRun(run, message, mode) => db.(runs := db.runs[run := AnalysisRun(message, mode, RunPending, None, None)])
    case AddStage(id, stage) => db.(stages := db.stages[id := stage])
    case Claim(id, token, now, until) => AfterClaim(db, id, token, now, until)
    case FindHit(_, _) => db
    case CommitHit(t, manifest, hit, ids, now) =>
      AfterHit(db, rules, t, manifest, hit.tag, hit.source, hit.parsed, ModeOf(db, t.stage),
        LabelsOf(db.assignments, hit.source), ids, now)
    case Start(t, manifest, call, tag, now) => AfterStart(db, t, manifest, call, tag, now)
    case Commit(t, call, answer, ids, now) => AfterCommit(db, t, call, answer, ModeOf(db, t.stage), ids, now)
    case Fail(t, failure, retryAt) => AfterFailure(db, t, failure, retryAt)
    case Gate(run, items, _, now) => AfterGate(db, run, items, now)
    case RollUp(run, now) => AfterRollUp(db, run, now)
  }

  /** The row that succeeds in this step, if any. */
  function Succeeding(db: Db, step: Step): Option<Target> {
    match step
    case CommitHit(t, _, hit, _, now) => if Hits(db, t, hit.tag, hit.source, now) then Some(t) else None
    case Commit(t, call, _, _, now) => if Commits(db, t, call, now) then Some(t) else None
    case _ => None
  }

  /** The history entry of a step that changes one row; the gate writes one for each row it skips. */
  function EventOf(db: Db, step: Step): Option<Event> {
    match step
    case AddStage(id, _) => Some(Opened(id))
    case Claim(id, token, now, _) =>
      if Claims(db, id, now) then Some(Acquired(id, token))
        else if Claimable(db, id, now) then Some(LeaseExhausted(id)) else None
    case CommitHit(_, _, _, _, _) =>
      (match Succeeding(db, step) case Some(t) => Some(Succeeded(t.stage, t.token)) case None => None)
    case Commit(_, _, _, _, _) =>
      (match Succeeding(db, step) case Some(t) => Some(Succeeded(t.stage, t.token)) case None => None)
    case Start(t, _, _, _, now) => if Locked(db, t, now) then Some(Progressed(t.stage, t.token)) else None
    case Fail(t, failure, _) =>
      if !Locked(db, t, failure.at) then None
      else if Retries(db, t, failure.retryable) then Some(BackedOff(t.stage, t.token))
        else Some(GaveUp(t.stage, t.token))
    case _ => None
  }

  function Skips(gated: seq<Id>): (events: seq<Event>)
    ensures |events| == |gated|
  {
    seq(|gated|, i requires 0 <= i < |gated| => Skipped(gated[i]))
  }

  function EventsOf(db: Db, step: Step): seq<Event> {
    if step.Gate? then Skips(step.gated) else match EventOf(db, step) case Some(e) => [e] case None => []
  }

  ghost predicate Next(w: World, rules: Rules, step: Step, v: World) {
    && Enabled(w, rules, step)
    && v.db == DbAfter(w.db, rules, step)
    && v.issued == w.issued + (if step.Claim? then {step.token} else {})
    && v.log == w.log + EventsOf(w.db, step)
    && v.hits == w.hits + (if step.FindHit? then {step.hit} else {})
    && v.ranks == match Succeeding(w.db, step) case Some(t) => w.ranks[t.stage := |w.log|] case None => w.ranks
  }

  predicate Initial(w: World) { w == World(Db(map[], map[], map[], []), {}, [], {}, map[]) }

  // ---------------------------------------------------------------- the invariant

  function PhaseOf(s: StageRun): Phase {
    if !s.Active() then Done else if s.status.StageRunning? && s.token.Some? then Held(s.token.value) else Idle
  }

  function Budget(s: StageRun): int {
    if !s.Active() then 0 else 2 * (s.maxAttempts - s.attempts) + if s.status.StageRunning? then 1 else 0
  }

  function StandingIn(stages: map<Id, StageRun>, id: Id): Standing {
    if id !in stages then Standing(Absent, 0, 0)
    else Standing(PhaseOf(stages[id]), Budget(stages[id]), 2 * stages[id].maxAttempts)
  }

  function Standings(stages: map<Id, StageRun>): Id -> Standing { (id: Id) => StandingIn(stages, id) }

  ghost predicate LogInv(w: World) { Recorded(w.log, w.issued, Standings(w.db.stages)) }

  /** A reused result: the source succeeded earlier under the same tag, and only the target ID differs from it. */
  predicate Reused(w: World, rules: Rules, id: Id)
    requires id in w.db.stages
  {
    var s := w.db.stages[id];
    s.reusedFrom.Some? && s.result.Some? ==>
      var source := s.reusedFrom.value;
      && ExactSource(w.db, source, s.tag)
      && source in w.ranks && id in w.ranks && w.ranks[source] < w.ranks[id]
      && s.result.value == Rewrite(rules, w.db.stages[source].result.value, s.target)
  }

  ghost predicate CacheInv(w: World, rules: Rules) {
    && (forall id | id in w.db.stages && w.db.stages[id].status.StageSucceeded? :: id in w.ranks)
    && (forall id | id in w.ranks ::
      id in w.db.stages && w.db.stages[id].status.StageSucceeded? && w.ranks[id] < |w.log|)
    && (forall id | id in w.db.stages :: Reused(w, rules, id))
    && (forall hit | hit in w.hits ::
      ExactSource(w.db, hit.source, hit.tag) && hit.parsed == Sanitize(rules, w.db.stages[hit.source].result.value))
  }

  ghost predicate Inv(w: World, rules: Rules) { DbInv(w.db) && LogInv(w) && CacheInv(w, rules) }

  // ---------------------------------------------------------------- tables

  lemma AdditionKeeps(w: World, rules: Rules, step: Step)
    requires DbInv(w.db) && Enabled(w, rules, step) && (step.AddMessage? || step.AddRun? || step.AddStage?)
    ensures DbInv(DbAfter(w.db, rules, step))
  {
    var v := DbAfter(w.db, rules, step);
    forall id | id in v.stages ensures StageChecks(v.stages[id]) {
      assert id in w.db.stages ==> StageChecks(w.db.stages[id]);
    }
    forall id | id in v.runs ensures RunChecks(v.runs[id]) && v.runs[id].message in v.messages {
      assert id in w.db.runs ==> RunChecks(w.db.runs[id]);
    }
  }

  lemma StepKeepsDb(w: World, rules: Rules, step: Step, v: World)
    requires DbInv(w.db) && Next(w, rules, step, v)
    ensures DbInv(v.db)
  {
    match step
    case AddMessage(_, _) => AdditionKeeps(w, rules, step);
    case AddRun(_, _, _) => AdditionKeeps(w, rules, step);
    case AddStage(_, _) => AdditionKeeps(w, rules, step);
    case Claim(id, token, now, until) => ClaimKeeps(w.db, id, token, now, until);
    case CommitHit(t, manifest, hit, ids, now) =>
      if Hits(w.db, t, hit.tag, hit.source, now) {
        HitIsRowStep(w.db, rules, t, manifest, hit.tag, hit.source, hit.parsed, ModeOf(w.db, t.stage),
          LabelsOf(w.db.assignments, hit.source), ids, now);
        RowKeeps(w.db, v.db, t.stage);
      }
    case Start(t, manifest, call, tag, now) =>
      if Locked(w.db, t, now) {
        StartIsRowStep(w.db, t, manifest, call, tag, now);
        RowKeeps(w.db, v.db, t.stage);
      }
    case Commit(t, call, answer, ids, now) =>
      if Commits(w.db, t, call, now) {
        CommitIsRowStep(w.db, t, call, answer, ModeOf(w.db, t.stage), ids, now);
        RowKeeps(w.db, v.db, t.stage);
      }
    case Fail(t, failure, retryAt) =>
      if Locked(w.db, t, failure.at) {
        FailureIsRowStep(w.db, t, failure, retryAt);
        RowKeeps(w.db, v.db, t.stage);
      }
    case Gate(run, items, _, now) => GateKeeps(w.db, run, items, now);
    case RollUp(run, now) => RollUpKeeps(w.db, run, now);
    case FindHit(_, _) =>
  }

  // ---------------------------------------------------------------- the history

  ghost predicate MovesRow(stages: map<Id, StageRun>, e: Event, after: map<Id, StageRun>) {
    && Moves(StandingIn(stages, e.id), e, StandingIn(after, e.id))
    && forall id | id != e.id :: StandingIn(after, id) == StandingIn(stages, id)
  }

  lemma ClaimMoves(db: Db, id: Id, token: Token, now: Time, until: Time)
    requires Checks(db) && Claimable(db, id, now)
    ensures
      var event := if Claims(db, id, now) then Acquired(id, token) else LeaseExhausted(id);
      MovesRow(db.stages, event, AfterClaim(db, id, token, now, until).stages)
  {
    assert StageChecks(db.stages[id]);
  }

  lemma HitMoves(db: Db, rules: Rules, t: Target, manifest: Id, tag: CacheTag, source: Id, hit: Json, mode: RunMode,
      labels: seq<Label>, ids: seq<Id>, now: Time)
    requires Checks(db) && |ids| == |labels| && Hits(db, t, tag, source, now)
    ensures MovesRow(db.stages, Succeeded(t.stage, t.token),
      AfterHit(db, rules, t, manifest, tag, source, hit, mode, labels, ids, now).stages)
  {
    assert StageChecks(db.stages[t.stage]);
  }

  lemma StartMoves(db: Db, t: Target, manifest: Id, call: Id, tag: CacheTag, now: Time)
    requires Checks(db) && Locked(db, t, now)
    ensures MovesRow(db.stages, Progressed(t.stage, t.token), AfterStart(db, t, manifest, call, tag, now).stages)
  {
  }

  lemma CommitMoves(db: Db, t: Target, call: Id, answer: Answer, mode: RunMode, ids: seq<Id>, now: Time)
    requires Checks(db) && |ids| == |answer.labels| && Commits(db, t, call, now)
    ensures MovesRow(db.stages, Succeeded(t.stage, t.token), AfterCommit(db, t, call, answer, mode, ids, now).stages)
  {
    assert StageChecks(db.stages[t.stage]);
  }

  lemma FailureMoves(db: Db, t: Target, failure: Failure, retryAt: Time)
    requires Checks(db) && Locked(db, t, failure.at)
    ensures
      var event :=
        if Retries(db, t, failure.retryable) then BackedOff(t.stage, t.token) else GaveUp(t.stage, t.token);
      MovesRow(db.stages, event, AfterFailure(db, t, failure, retryAt).stages)
  {
    assert StageChecks(db.stages[t.stage]);
  }

  lemma EventFits(w: World, rules: Rules, step: Step, v: World)
    requires Checks(w.db) && Next(w, rules, step, v) && !step.Gate?
    ensures match EventOf(w.db, step)
      case None => v.db.stages == w.db.stages
      case Some(e) => MovesRow(w.db.stages, e, v.db.stages) && (e.Acquired? ==> step.Claim? && e.token == step.token)
  {
    match step
    case Claim(id, token, now, until) => if Claimable(w.db, id, now) { ClaimMoves(w.db, id, token, now, until); }
    case CommitHit(t, manifest, hit, ids, now) =>
      if Hits(w.db, t, hit.tag, hit.source, now) {
        HitMoves(w.db, rules, t, manifest, hit.tag, hit.source, hit.parsed, ModeOf(w.db, t.stage),
          LabelsOf(w.db.assignments, hit.source), ids, now);
      }
    case Start(t, manifest, call, tag, now) =>
      if Locked(w.db, t, now) { StartMoves(w.db, t, manifest, call, tag, now); }
    case Commit(t, call, answer, ids, now) =>
      if Commits(w.db, t, call, now) { CommitMoves(w.db, t, call, answer, ModeOf(w.db, t.stage), ids, now); }
    case Fail(t, failure, retryAt) => if Locked(w.db, t, failure.at) { FailureMoves(w.db, t, failure, retryAt); }
    case _ =>
  }

  /** The gate's rows leave the protocol one after the other. */
  lemma {:induction false} SkipsRecorded(log: seq<Event>, issued: set<Token>, at: Id -> Standing, gated: seq<Id>,
      to: Id -> Standing)
    requires Recorded(log, issued, at)
    requires forall i, j | 0 <= i < j < |gated| :: gated[i] != gated[j]
    requires forall id :: if id in gated then Moves(at(id), Skipped(id), to(id)) else to(id) == at(id)
    ensures Recorded(log + Skips(gated), issued, to)
  {
    if gated == [] {
      assert log + Skips(gated) == log;
      RecordedStays(log, issued, at, {}, to);
      assert issued + {} == issued;
    } else {
      var n := |gated| - 1;
      var mid := (id: Id) => if id == gated[n] then at(id) else to(id);
      assert gated[n] !in gated[..n];
      forall id ensures if id in gated[..n] then Moves(at(id), Skipped(id), mid(id)) else mid(id) == at(id) {
        assert id in gated <==> id in gated[..n] || id == gated[n];
      }
      SkipsRecorded(log, issued, at, gated[..n], mid);
      assert log + Skips(gated) == log + Skips(gated[..n]) + [Skipped(gated[n])];
      RecordedStep(log + Skips(gated[..n]), issued, mid, Skipped(gated[n]), {}, to);
      assert issued + {} == issued;
    }
  }

  lemma GateMoves(db: Db, run: Id, items: seq<GateItem>, now: Time, id: Id)
    requires Checks(db)
    ensures var after := AfterGate(db, run, items, now).stages;
      if GateApplies(db, run, items) && id in db.stages && Gated(db.stages[id], run, items)
      then Moves(StandingIn(db.stages, id), Skipped(id), StandingIn(after, id))
        else StandingIn(after, id) == StandingIn(db.stages, id)
  {
    assert id in db.stages ==> StageChecks(db.stages[id]);
  }

  lemma GateLogged(w: World, run: Id, items: seq<GateItem>, gated: seq<Id>, now: Time, v: World)
    requires Checks(w.db) && LogInv(w)
    requires forall id ::
      id in gated <==> GateApplies(w.db, run, items) && id in w.db.stages && Gated(w.db.stages[id], run, items)
    requires forall i, j | 0 <= i < j < |gated| :: gated[i] != gated[j]
    requires v.db == AfterGate(w.db, run, items, now) && v.issued == w.issued && v.log == w.log + Skips(gated)
    ensures LogInv(v)
  {
    var at, to := Standings(w.db.stages), Standings(v.db.stages);
    forall id ensures if id in gated then Moves(at(id), Skipped(id), to(id)) else to(id) == at(id) {
      GateMoves(w.db, run, items, now, id);
    }
    SkipsRecorded(w.log, w.issued, at, gated, to);
  }

  lemma LogFollows(w: World, event: Option<Event>, drawn: set<Token>, v: World)
    requires LogInv(w) && v.issued == w.issued + drawn
    requires match event
      case None => v.log == w.log && v.db.stages == w.db.stages
      case Some(e) =>
        v.log == w.log + [e] && MovesRow(w.db.stages, e, v.db.stages)
          && (e.Acquired? ==> e.token !in w.issued && e.token in drawn)
    ensures LogInv(v)
  {
    match event
    case Some(e) => RecordedStep(w.log, w.issued, Standings(w.db.stages), e, drawn, Standings(v.db.stages));
    case None => RecordedStays(w.log, w.issued, Standings(w.db.stages), drawn, Standings(v.db.stages));
  }

  lemma StepKeepsLog(w: World, rules: Rules, step: Step, v: World)
    requires Checks(w.db) && LogInv(w) && Next(w, rules, step, v)
    ensures LogInv(v)
  {
    if step.Gate? {
      GateLogged(w, step.run, step.items, step.gated, step.now, v);
    } else {
      EventFits(w, rules, step, v);
      var event := EventOf(w.db, step);
      assert v.log == match event case None => w.log case Some(e) => w.log + [e] by {
        if event.None? { assert w.log + [] == w.log; }
      }
      LogFollows(w, event, if step.Claim? then {step.token} else {}, v);
    }
  }

  // ---------------------------------------------------------------- cached results

  /** A row that succeeded is never written again. */
  ghost predicate SucceededStay(db: Db, v: Db) {
    forall id | id in db.stages && db.stages[id].status.StageSucceeded? ::
      id in v.stages && v.stages[id] == db.stages[id]
  }

  lemma RowStepSparesSucceeded(db: Db, v: Db, id: Id)
    requires RowStep(db, v, id)
    ensures SucceededStay(db, v)
  {
  }

  lemma ClaimSparesSucceeded(db: Db, id: Id, token: Token, now: Time, until: Time)
    ensures SucceededStay(db, AfterClaim(db, id, token, now, until))
  {
    assert Claimable(db, id, now) ==> db.stages[id].Active();
  }

  lemma SucceededAreFinal(w: World, rules: Rules, step: Step, v: World)
    requires Checks(w.db) && Next(w, rules, step, v)
    ensures SucceededStay(w.db, v.db)
  {
    match step
    case Claim(id, token, now, until) => ClaimSparesSucceeded(w.db, id, token, now, until);
    case CommitHit(t, manifest, hit, ids, now) =>
      if Hits(w.db, t, hit.tag, hit.source, now) {
        HitIsRowStep(w.db, rules, t, manifest, hit.tag, hit.source, hit.parsed, ModeOf(w.db, t.stage),
          LabelsOf(w.db.assignments, hit.source), ids, now);
        RowStepSparesSucceeded(w.db, v.db, t.stage);
      }
    case Start(t, manifest, call, tag, now) =>
      if Locked(w.db, t, now) {
        StartIsRowStep(w.db, t, manifest, call, tag, now);
        RowStepSparesSucceeded(w.db, v.db, t.stage);
      }
    case Commit(t, call, answer, ids, now) =>
      if Commits(w.db, t, call, now) {
        CommitIsRowStep(w.db, t, call, answer, ModeOf(w.db, t.stage), ids, now);
        RowStepSparesSucceeded(w.db, v.db, t.stage);
      }
    case Fail(t, failure, retryAt) =>
      if Locked(w.db, t, failure.at) {
        FailureIsRowStep(w.db, t, failure, retryAt);
        RowStepSparesSucceeded(w.db, v.db, t.stage);
      }
    case Gate(_, _, _, _) => GateSparesSucceeded(w.db, step.run, step.items, step.now);
    case _ =>
  }

  lemma GateSparesSucceeded(db: Db, run: Id, items: seq<GateItem>, now: Time)
    ensures SucceededStay(db, AfterGate(db, run, items, now))
  {
  }

  /** Sources stay exact and reused results stay explained while succeeded rows stay and ranks only grow. */
  lemma ReusedStill(w: World, rules: Rules, v: World, id: Id)
    requires SucceededStay(w.db, v.db) && id in w.db.stages && id in v.db.stages && v.db.stages[id] == w.db.stages[id]
    requires forall x | x in w.ranks :: x in v.ranks && v.ranks[x] == w.ranks[x]
    requires Reused(w, rules, id)
    ensures Reused(v, rules, id)
  {
  }

  /** A row that is not succeeded reuses nothing. */
  lemma UnsucceededReusesNothing(w: World, rules: Rules, id: Id)
    requires id in w.db.stages && StageChecks(w.db.stages[id]) && !w.db.stages[id].status.StageSucceeded?
    ensures Reused(w, rules, id)
  {
  }

  /** Rows that succeed in a step without taking a hit reuse nothing; the others are as before. */
  lemma NewlySucceeded(w: World, rules: Rules, step: Step, v: World, id: Id)
    requires DbInv(w.db) && Next(w, rules, step, v) && id in v.db.stages && v.db.stages[id].status.StageSucceeded?
    ensures (id in w.db.stages && w.db.stages[id].status.StageSucceeded?)
      || (Succeeding(w.db, step).Some? && Succeeding(w.db, step).value.stage == id)
    ensures Succeeding(w.db, step).Some? && Succeeding(w.db, step).value.stage == id && step.Commit? ==>
      v.db.stages[id].reusedFrom.None?
  {
  }

  lemma HitExplained(w: World, rules: Rules, step: Step, v: World)
    requires DbInv(w.db) && CacheInv(w, rules) && Next(w, rules, step, v) && step.CommitHit?
    requires Succeeding(w.db, step).Some?
    ensures Reused(v, rules, step.t.stage)
  {
    var s, source := w.db.stages[step.t.stage], w.db.stages[step.hit.source];
    assert step.hit in w.hits && source.status.StageSucceeded? && step.hit.source in w.ranks;
    assert v.db.stages[step.hit.source] == source;
    if source.result.value == Obj(map[]) { assert Sanitize(rules, Obj(map[])) == Obj(map[]); }
  }

  lemma RanksGrow(w: World, rules: Rules, step: Step, v: World)
    requires DbInv(w.db) && CacheInv(w, rules) && Next(w, rules, step, v)
    ensures forall id | id in w.ranks :: id in v.ranks && v.ranks[id] == w.ranks[id]
    ensures forall id | id in v.ranks ::
      id in v.db.stages && v.db.stages[id].status.StageSucceeded? && v.ranks[id] < |v.log|
  {
    SucceededAreFinal(w, rules, step, v);
    match Succeeding(w.db, step)
    case Some(t) =>
      assert w.db.stages[t.stage].status.StageRunning?;
      assert EventsOf(w.db, step) == [Succeeded(t.stage, t.token)];
    case None =>
  }

  lemma StepKeepsCache(w: World, rules: Rules, step: Step, v: World)
    requires DbInv(w.db) && CacheInv(w, rules) && Next(w, rules, step, v) && DbInv(v.db)
    ensures CacheInv(v, rules)
  {
    SucceededAreFinal(w, rules, step, v);
    RanksGrow(w, rules, step, v);
    forall id | id in v.db.stages
      ensures v.db.stages[id].status.StageSucceeded? ==> id in v.ranks
      ensures Reused(v, rules, id)
    {
      StageKeepsCache(w, rules, step, v, id);
    }
    HitsStillExact(w, rules, step, v);
  }

  lemma HitsStillExact(w: World, rules: Rules, step: Step, v: World)
    requires CacheInv(w, rules) && Next(w, rules, step, v) && SucceededStay(w.db, v.db)
    ensures forall hit | hit in v.hits ::
      ExactSource(v.db, hit.source, hit.tag) && hit.parsed == Sanitize(rules, v.db.stages[hit.source].result.value)
  {
    forall hit | hit in v.hits
      ensures ExactSource(w.db, hit.source, hit.tag)
      ensures hit.parsed == Sanitize(rules, w.db.stages[hit.source].result.value)
    {
      assert hit in w.hits || (step.FindHit? && hit == step.hit);
    }
  }

  lemma StageKeepsCache(w: World, rules: Rules, step: Step, v: World, id: Id)
    requires DbInv(w.db) && CacheInv(w, rules) && Next(w, rules, step, v) && DbInv(v.db)
    requires SucceededStay(w.db, v.db) && (forall x | x in w.ranks :: x in v.ranks && v.ranks[x] == w.ranks[x])
    requires id in v.db.stages
    ensures v.db.stages[id].status.StageSucceeded? ==> id in v.ranks
    ensures Reused(v, rules, id)
  {
    if !v.db.stages[id].status.StageSucceeded? {
      UnsucceededReusesNothing(v, rules, id);
    } else {
      NewlySucceeded(w, rules, step, v, id);
      if id in w.db.stages && w.db.stages[id].status.StageSucceeded? {
        ReusedStill(w, rules, v, id);
      } else if step.CommitHit? {
        HitExplained(w, rules, step, v);
      }
    }
  }

  lemma StepKeeps(w: World, rules: Rules, step: Step, v: World)
    requires Inv(w, rules) && Next(w, rules, step, v)
    ensures Inv(v, rules)
  {
    StepKeepsDb(w, rules, step, v);
    StepKeepsLog(w, rules, step, v);
    StepKeepsCache(w, rules, step, v);
  }

  /** The protocol goes on from `w`. */
  ghost predicate Continues(rules: Rules, w: World, steps: seq<Step>, worlds: seq<World>) {
    && |worlds| == |steps| + 1 && worlds[0] == w
    && forall i | 0 <= i < |steps| :: Next(worlds[i], rules, steps[i], worlds[i + 1])
  }

  ghost predicate IsRun(rules: Rules, steps: seq<Step>, worlds: seq<World>) {
    && |worlds| == |steps| + 1 && Initial(worlds[0])
    && forall i | 0 <= i < |steps| :: Next(worlds[i], rules, steps[i], worlds[i + 1])
  }

  lemma {:induction false} RunKeeps(rules: Rules, steps: seq<Step>, worlds: seq<World>, n: nat)
    requires IsRun(rules, steps, worlds) && n < |worlds|
    ensures Inv(worlds[n], rules)
  {
    if n > 0 {
      RunKeeps(rules, steps, worlds, n - 1);
      StepKeeps(worlds[n - 1], rules, steps[n - 1], worlds[n]);
    }
  }

  // ---------------------------------------------------------------- what holds in every reachable state

  /** A path of reuse: each row was copied from the next, which succeeded before it. */
  ghost predicate ReusePath(w: World, path: seq<Id>) {
    && path != [] && (forall i | 0 <= i < |path| :: path[i] in w.db.stages && path[i] in w.ranks)
    && forall i | 0 <= i < |path| - 1 ::
         w.db.stages[path[i]].reusedFrom == Some(path[i + 1]) && w.ranks[path[i + 1]] < w.ranks[path[i]]
  }

  /** Every cached result leads, by finitely many ever earlier rows, to an inference result it is a rewriting of. */
  lemma {:induction false} ReuseEnds(w: World, rules: Rules, id: Id) returns (path: seq<Id>)
    requires rules.Valid() && DbInv(w.db) && CacheInv(w, rules)
    requires id in w.db.stages && w.db.stages[id].origin == Some(Cache)
    ensures ReusePath(w, path) && path[0] == id && |path| > 1
    ensures var s, origin := w.db.stages[id], w.db.stages[path[|path| - 1]];
      && origin.origin == Some(Inference) && origin.status.StageSucceeded? && origin.tag == s.tag && s.tag.key.Some?
      && origin.result.Some? && s.result == Some(Rewrite(rules, origin.result.value, s.target))
    decreases if id in w.ranks then w.ranks[id] else 0
  {
    var s := w.db.stages[id];
    assert StageChecks(s) && Reused(w, rules, id);
    var source := s.reusedFrom.value;
    assert StageChecks(w.db.stages[source]) && Reused(w, rules, source);
    var made: Origin := w.db.stages[source].origin.value;
    if made.Inference? {
      path := [id, source];
    } else {
      assert made.Cache?;
      var rest := ReuseEnds(w, rules, source);
      var origin := w.db.stages[rest[|rest| - 1]];
      RewriteTwice(rules, origin.result.value, w.db.stages[source].target, s.target);
      path := [id] + rest;
    }
  }

  /** Ranks fall along a path of reuse, so it never returns to a row. */
  lemma {:induction false} ReuseIsAcyclic(w: World, path: seq<Id>, i: nat, j: nat)
    requires ReusePath(w, path) && i < j < |path|
    ensures w.ranks[path[j]] < w.ranks[path[i]] && path[i] != path[j]
  {
    if j > i + 1 { ReuseIsAcyclic(w, path, i, j - 1); }
  }

  lemma CachedResultsHaveAnOrigin(rules: Rules, steps: seq<Step>, worlds: seq<World>, n: nat, id: Id)
      returns (path: seq<Id>)
    requires rules.Valid() && IsRun(rules, steps, worlds) && n < |worlds|
    requires id in worlds[n].db.stages && worlds[n].db.stages[id].origin == Some(Cache)
    ensures ReusePath(worlds[n], path) && path[0] == id
    ensures forall i, j | 0 <= i < j < |path| :: path[i] != path[j]
    ensures var s, origin := worlds[n].db.stages[id], worlds[n].db.stages[path[|path| - 1]];
      && origin.origin == Some(Inference) && origin.tag == s.tag
      && origin.result.Some? && s.result == Some(Rewrite(rules, origin.result.value, s.target))
  {
    RunKeeps(rules, steps, worlds, n);
    path := ReuseEnds(worlds[n], rules, id);
    forall i, j | 0 <= i < j < |path| ensures path[i] != path[j] { ReuseIsAcyclic(worlds[n], path, i, j); }
  }

  /** A hit found in one transaction is still exact, and still what the source holds, in every later one. */
  lemma HitsStayExact(rules: Rules, steps: seq<Step>, worlds: seq<World>, n: nat, hit: Hit)
    requires IsRun(rules, steps, worlds) && n < |worlds| && hit in worlds[n].hits
    ensures ExactSource(worlds[n].db, hit.source, hit.tag)
    ensures hit.parsed == Sanitize(rules, worlds[n].db.stages[hit.source].result.value)
  {
    RunKeeps(rules, steps, worlds, n);
  }

  lemma SucceededStayAt(rules: Rules, steps: seq<Step>, worlds: seq<World>, n: nat)
    requires IsRun(rules, steps, worlds) && n < |steps|
    ensures SucceededStay(worlds[n].db, worlds[n + 1].db)
  {
    RunKeeps(rules, steps, worlds, n);
    SucceededAreFinal(worlds[n], rules, steps[n], worlds[n + 1]);
  }

  lemma {:induction false} StaysThroughout(worlds: seq<World>, m: nat, n: nat, id: Id)
    requires m <= n < |worlds| && forall k | 0 <= k < |worlds| - 1 :: SucceededStay(worlds[k].db, worlds[k + 1].db)
    requires id in worlds[m].db.stages && worlds[m].db.stages[id].status.StageSucceeded?
    ensures id in worlds[n].db.stages && worlds[n].db.stages[id] == worlds[m].db.stages[id]
  {
    if m < n {
      StaysThroughout(worlds, m, n - 1, id);
      assert SucceededStay(worlds[n - 1].db, worlds[n - 1 + 1].db);
    }
  }

  /** A succeeded row is the same in every later state. */
  lemma SucceededForever(rules: Rules, steps: seq<Step>, worlds: seq<World>, m: nat, n: nat, id: Id)
    requires IsRun(rules, steps, worlds) && m <= n < |worlds|
    requires id in worlds[m].db.stages && worlds[m].db.stages[id].status.StageSucceeded?
    ensures id in worlds[n].db.stages && worlds[n].db.stages[id] == worlds[m].db.stages[id]
  {
    forall k | 0 <= k < |worlds| - 1 ensures SucceededStay(worlds[k].db, worlds[k + 1].db) {
      SucceededStayAt(rules, steps, worlds, k);
    }
    StaysThroughout(worlds, m, n, id);
  }

  /** A terminal run has no pending, running or retry-waiting stage run. */
  lemma TerminalRunsAreQuiet(rules: Rules, steps: seq<Step>, worlds: seq<World>, n: nat, id: Id)
    requires IsRun(rules, steps, worlds) && n < |worlds| && id in worlds[n].db.stages
    requires worlds[n].db.stages[id].Active()
    ensures worlds[n].db.stages[id].run in worlds[n].db.runs
    ensures !worlds[n].db.runs[worlds[n].db.stages[id].run].Terminal()
  {
    RunKeeps(rules, steps, worlds, n);
  }

  lemma TerminalStaysTerminal(w: World, rules: Rules, step: Step, v: World, run: Id)
    requires DbInv(w.db) && Next(w, rules, step, v) && run in w.db.runs && w.db.runs[run].Terminal()
    ensures run in v.db.runs && v.db.runs[run].Terminal()
  {
    if step.RollUp? && step.run == run { RollUpStatus(w.db, run, step.now); }
  }

  ghost predicate TerminalStay(db: Db, v: Db) {
    forall run | run in db.runs && db.runs[run].Terminal() :: run in v.runs && v.runs[run].Terminal()
  }

  lemma TerminalStaysAt(rules: Rules, steps: seq<Step>, worlds: seq<World>, n: nat)
    requires IsRun(rules, steps, worlds) && n < |steps|
    ensures TerminalStay(worlds[n].db, worlds[n + 1].db)
  {
    RunKeeps(rules, steps, worlds, n);
    forall run | run in worlds[n].db.runs && worlds[n].db.runs[run].Terminal()
      ensures run in worlds[n + 1].db.runs && worlds[n + 1].db.runs[run].Terminal()
    {
      TerminalStaysTerminal(worlds[n], rules, steps[n], worlds[n + 1], run);
    }
  }

  lemma {:induction false} TerminalThroughout(worlds: seq<World>, m: nat, n: nat, run: Id)
    requires m <= n < |worlds| && forall k | 0 <= k < |worlds| - 1 :: TerminalStay(worlds[k].db, worlds[k + 1].db)
    requires run in worlds[m].db.runs && worlds[m].db.runs[run].Terminal()
    ensures run in worlds[n].db.runs && worlds[n].db.runs[run].Terminal()
  {
    if m < n {
      TerminalThroughout(worlds, m, n - 1, run);
      assert TerminalStay(worlds[n - 1].db, worlds[n - 1 + 1].db);
    }
  }

  /** A terminal run never reopens. */
  lemma TerminalForever(rules: Rules, steps: seq<Step>, worlds: seq<World>, m: nat, n: nat, run: Id)
    requires IsRun(rules, steps, worlds) && m <= n < |worlds| && run in worlds[m].db.runs
    requires worlds[m].db.runs[run].Terminal()
    ensures run in worlds[n].db.runs && worlds[n].db.runs[run].Terminal()
  {
    forall k | 0 <= k < |worlds| - 1 ensures TerminalStay(worlds[k].db, worlds[k + 1].db) {
      TerminalStaysAt(rules, steps, worlds, k);
    }
    TerminalThroughout(worlds, m, n, run);
  }

  /** A claim never turns down a live stage run because its run is over. */
  lemma ClaimMeetsNoTerminalRun(rules: Rules, steps: seq<Step>, worlds: seq<World>, n: nat, id: Id, now: Time)
    requires IsRun(rules, steps, worlds) && n < |worlds| && id in worlds[n].db.stages
    requires Due(worlds[n].db.stages[id], now)
    ensures Claimable(worlds[n].db, id, now)
  {
    RunKeeps(rules, steps, worlds, n);
    assert worlds[n].db.stages[id].Active();
  }

  /**
   * A commit, failure or start under a lease token comes after the one
   * claim that drew it, with nothing but starts between.
   */
  lemma LeasesFence(rules: Rules, steps: seq<Step>, worlds: seq<World>, n: nat, k: nat, token: Token) returns (j: nat)
    requires IsRun(rules, steps, worlds) && n < |worlds| && k < |worlds[n].log| && worlds[n].log[k].Carries(token)
    ensures var log := worlds[n].log;
      && j < k && log[j] == Acquired(log[k].id, token)
      && (forall m | j < m < k && log[m].id == log[k].id :: log[m] == Progressed(log[k].id, token))
      && (forall m | 0 <= m < |log| && log[m].Acquired? && log[m].token == token :: m == j)
  {
    RunKeeps(rules, steps, worlds, n);
    j := Fencing(worlds[n].log, k, token);
  }

  /**
   * A stage run succeeds, fails for good, is exhausted or is skipped at
   * most once, and nothing happens to it afterwards.
   */
  lemma EndsOnce(rules: Rules, steps: seq<Step>, worlds: seq<World>, n: nat, k: nat)
    requires IsRun(rules, steps, worlds) && n < |worlds| && k < |worlds[n].log| && worlds[n].log[k].Ends()
    ensures forall m | k < m < |worlds[n].log| :: worlds[n].log[m].id != worlds[n].log[k].id
    ensures worlds[n].log[k].id in worlds[n].db.stages && !worlds[n].db.stages[worlds[n].log[k].id].Active()
  {
    RunKeeps(rules, steps, worlds, n);
    var id := worlds[n].log[k].id;
    NothingAfterEnd(worlds[n].log, k, id);
    assert Standings(worlds[n].db.stages)(id).phase == Done;
  }

  /** No stage run makes more than twice its attempts in lifecycle transitions. */
  lemma LifecycleIsBounded(rules: Rules, steps: seq<Step>, worlds: seq<World>, n: nat, id: Id)
    requires IsRun(rules, steps, worlds) && n < |worlds| && id in worlds[n].db.stages
    ensures Lifecycles(worlds[n].log, id) <= 2 * worlds[n].db.stages[id].maxAttempts
  {
    RunKeeps(rules, steps, worlds, n);
    assert StageChecks(worlds[n].db.stages[id]);
    assert Standings(worlds[n].db.stages)(id).phase != Absent;
  }

  /** A claim gives up on a stage run only when it finds an expired lease and no attempts left. */
  lemma ExhaustionNeedsAnExpiredLease(rules: Rules, steps: seq<Step>, worlds: seq<World>, n: nat, id: Id)
    requires IsRun(rules, steps, worlds) && n < |steps| && steps[n].Claim?
    requires EventOf(worlds[n].db, steps[n]) == Some(LeaseExhausted(id))
    ensures var s := worlds[n].db.stages[id];
      s.status.StageRunning? && s.expires.Some? && s.expires.value <= steps[n].now && s.attempts == s.maxAttempts
  {
    RunKeeps(rules, steps, worlds, n);
    assert StageChecks(worlds[n].db.stages[id]);
  }

  /** The CHECK constraints on stage runs and analysis runs hold in every reachable state. */
  lemma ConstraintsHold(rules: Rules, steps: seq<Step>, worlds: seq<World>, n: nat)
    requires IsRun(rules, steps, worlds) && n < |worlds|
    ensures Checks(worlds[n].db) && Linked(worlds[n].db)
  {
    RunKeeps(rules, steps, worlds, n);
  }
}
