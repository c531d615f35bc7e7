/** What every transaction on stage runs keeps. */
module StageProtocol {
  import opened Json
  import opened Sanitizer
  import opened StageStore

  // ---------------------------------------------------------------- the invariant

  /** The CHECK constraints of a stage run, and that only a succeeded one holds a result. */
  predicate StageChecks(s: StageRun) {
    && 0 < s.maxAttempts && 0 <= s.attempts <= s.maxAttempts
    && (if s.status.StageRunning? then s.token.Some? && s.expires.Some? && s.attempts > 0
      else s.token.None? && s.expires.None?)
    && (s.status.StageRetryWait? <==> s.nextRetry.Some?)
    && (s.status.StageRetryWait? || s.status.StageFailed? ==> s.failure.Some?)
    && (!s.Active() ==> s.completedAt.Some?)
    && (s.call.Some? ==> s.manifest.Some?)
    && (s.result.Some? ==> s.result.value.Obj?)
    && (s.status.StageSucceeded? ==> s.result.Some? && s.origin.Some? && s.manifest.Some?)
    && (!s.status.StageSucceeded? ==> s.result.None? && s.origin.None?)
    && (s.origin == Some(Cache) <==> s.reusedFrom.Some?)
    && (s.attempts == s.maxAttempts ==> !s.status.StagePending? && !s.status.StageRetryWait?)
  }

  /** The lifecycle constraint of an analysis run. */
  predicate RunChecks(r: AnalysisRun) {
    match r.status
    case RunPending => r.startedAt.None? && r.completedAt.None?
    case RunRunning => r.startedAt.Some? && r.completedAt.None?
    case _ => r.startedAt.Some? && r.completedAt.Some?
  }

  predicate Checks(db: Db) {
    && (forall id | id in db.stages :: StageChecks(db.stages[id]))
    && (forall id | id in db.runs :: RunChecks(db.runs[id]) && db.runs[id].message in db.messages)
  }

  /** A stage run belongs to a run of the same message; an assignment carries the run and message of its stage run. */
  predicate Linked(db: Db) {
    && (forall id | id in db.stages ::
      db.stages[id].run in db.runs && db.stages[id].message == db.runs[db.stages[id].run].message)
    && (forall i | 0 <= i < |db.assignments| ::
          && db.assignments[i].stage in db.stages
          && db.assignments[i].run == db.stages[db.assignments[i].stage].run
          && db.assignments[i].message == db.stages[db.assignments[i].stage].message)
  }

  /** A terminal run has no stage run that is pending, running or waiting for a retry. */
  predicate Quiet(db: Db) {
    forall id | id in db.stages && db.stages[id].Active() ::
      db.stages[id].run in db.runs && !db.runs[db.stages[id].run].Terminal()
  }

  ghost predicate DbInv(db: Db) { Checks(db) && Linked(db) && Quiet(db) }

  // ---------------------------------------------------------------- rows under a lease

  /** One leased row became another row of the same run, message and target. */
  predicate RowStep(db: Db, v: Db, id: Id) {
    && id in db.stages && id in v.stages && db.stages[id].Active()
    && v.stages == db.stages[id := v.stages[id]] && v.runs == db.runs && v.messages == db.messages
    && v.stages[id].run == db.stages[id].run && v.stages[id].message == db.stages[id].message
      && v.stages[id].target == db.stages[id].target
    && StageChecks(v.stages[id])
  }

  /** The new assignments are those of the row. */
  predicate AssignedTo(db: Db, v: Db, id: Id)
    requires id in db.stages
  {
    && |db.assignments| <= |v.assignments| && v.assignments[..|db.assignments|] == db.assignments
    && forall i | |db.assignments| <= i < |v.assignments| ::
         v.assignments[i].stage == id && v.assignments[i].run == db.stages[id].run
           && v.assignments[i].message == db.stages[id].message
  }

  lemma RowKeeps(db: Db, v: Db, id: Id)
    requires DbInv(db) && RowStep(db, v, id) && AssignedTo(db, v, id)
    ensures DbInv(v)
  {
    forall i | 0 <= i < |v.assignments|
      ensures v.assignments[i].stage in v.stages
      ensures v.assignments[i].run == v.stages[v.assignments[i].stage].run
      ensures v.assignments[i].message == v.stages[v.assignments[i].stage].message
    {
      if i < |db.assignments| { assert v.assignments[i] == v.assignments[..|db.assignments|][i] == db.assignments[i]; }
    }
  }

  lemma HitIsRowStep(db: Db, rules: Rules, t: Target, manifest: Id, tag: CacheTag, source: Id, hit: Json,
      mode: RunMode, labels: seq<Label>, ids: seq<Id>, now: Time)
    requires Checks(db) && |ids| == |labels| && Hits(db, t, tag, source, now)
    ensures
      var v := AfterHit(db, rules, t, manifest, tag, source, hit, mode, labels, ids, now);
      RowStep(db, v, t.stage) && AssignedTo(db, v, t.stage)
  {
    assert StageChecks(db.stages[t.stage]);
  }

  lemma StartIsRowStep(db: Db, t: Target, manifest: Id, call: Id, tag: CacheTag, now: Time)
    requires Checks(db) && Locked(db, t, now)
    ensures
      var v := AfterStart(db, t, manifest, call, tag, now);
      RowStep(db, v, t.stage) && AssignedTo(db, v, t.stage)
  {
    assert StageChecks(db.stages[t.stage]);
  }

  lemma CommitIsRowStep(db: Db, t: Target, call: Id, answer: Answer, mode: RunMode, ids: seq<Id>, now: Time)
    requires Checks(db) && |ids| == |answer.labels| && Commits(db, t, call, now) && answer.document.Obj?
    ensures
      var v := AfterCommit(db, t, call, answer, mode, ids, now);
      RowStep(db, v, t.stage) && AssignedTo(db, v, t.stage)
  {
    assert StageChecks(db.stages[t.stage]);
  }

  lemma FailureIsRowStep(db: Db, t: Target, failure: Failure, retryAt: Time)
    requires Checks(db) && Locked(db, t, failure.at)
    ensures var v := AfterFailure(db, t, failure, retryAt); RowStep(db, v, t.stage) && AssignedTo(db, v, t.stage)
  {
    assert StageChecks(db.stages[t.stage]);
  }

  // ---------------------------------------------------------------- claims, the gate and the roll-up

  lemma ClaimKeeps(db: Db, id: Id, token: Token, now: Time, until: Time)
    requires DbInv(db)
    ensures DbInv(AfterClaim(db, id, token, now, until))
    ensures Claimable(db, id, now) && !Claims(db, id, now) ==>
      db.stages[id].status.StageRunning? && db.stages[id].expires.value <= now
  {
    if Claimable(db, id, now) {
      assert StageChecks(db.stages[id]);
      if !Claims(db, id, now) { ExhaustionKeeps(db, id, now); }
    }
  }

  lemma ExhaustionKeeps(db: Db, id: Id, now: Time)
    requires DbInv(db) && id in db.stages && db.stages[id].status.StageRunning?
    ensures DbInv(AfterExhaustion(db, id, now))
  {
    assert StageChecks(db.stages[id]);
    var v := AfterExhaustion(db, id, now);
    forall x | x in v.stages && v.stages[x].Active() ensures !v.runs[v.stages[x].run].Terminal() {
      assert x != id && db.stages[x].Active();
    }
  }

  lemma {:induction false} CauseFinds(items: seq<GateItem>, message: Id)
    ensures Cause(items, message).None? <==> forall i | 0 <= i < |items| :: items[i].message != message
    ensures Cause(items, message).Some? ==>
      Cause(items, message).value in items && Cause(items, message).value.message == message
  {
    if items != [] && items[0].message != message { CauseFinds(items[1..], message); }
  }

  lemma {:induction false} AssignmentFound(assignments: seq<Assignment>, id: Id)
    ensures FindAssignment(assignments, id).Some? ==> FindAssignment(assignments, id).value in assignments
  {
    if assignments != [] && assignments[0].id != id { AssignmentFound(assignments[1..], id); }
  }

  /** A gate that applies names the message of its run: nothing active is left in the run. */
  lemma GateNamesTheRun(db: Db, run: Id, items: seq<GateItem>)
    requires Linked(db) && GateApplies(db, run, items)
    ensures forall i | 0 <= i < |items| :: items[i].message == db.runs[run].message
    ensures Cause(items, db.runs[run].message).Some?
  {
    forall i | 0 <= i < |items| ensures items[i].message == db.runs[run].message {
      assert ItemHolds(db, run, items[i]);
      AssignmentFound(db.assignments, items[i].assignment);
    }
    CauseFinds(items, db.runs[run].message);
    assert items[0].message == db.runs[run].message;
  }

  lemma GateKeeps(db: Db, run: Id, items: seq<GateItem>, now: Time)
    requires DbInv(db)
    ensures DbInv(AfterGate(db, run, items, now))
  {
    if GateApplies(db, run, items) {
      var v := AfterGate(db, run, items, now);
      GateNamesTheRun(db, run, items);
      forall id | id in v.stages
        ensures StageChecks(v.stages[id]) && v.stages[id].run in v.runs
        ensures v.stages[id].message == v.runs[v.stages[id].run].message
      {
        assert StageChecks(db.stages[id]);
      }
      forall id | id in v.stages && v.stages[id].Active() ensures !v.runs[v.stages[id].run].Terminal() {
        assert db.stages[id].Active();
        if db.stages[id].run == run { assert Gated(db.stages[id], run, items); }
      }
    }
  }

  lemma RollUpKeeps(db: Db, run: Id, now: Time)
    requires DbInv(db)
    ensures DbInv(AfterRollUp(db, run, now))
  {
    if run in db.runs { assert RunChecks(db.runs[run]); }
  }

  /**
   * Whether stage runs of the run are active, failed or gated decides its
   * status; failure takes precedence over a block.
   */
  lemma RollUpStatus(db: Db, run: Id, now: Time)
    requires DbInv(db) && run in db.runs
    ensures var r, s := db.runs[run], AfterRollUp(db, run, now).runs[run];
      && (s.status.RunRunning? <==> AnyActive(db.stages, run))
      && (s.Terminal() <==> !AnyActive(db.stages, run))
      && (s.status.RunFailed? <==> !AnyActive(db.stages, run) && AnyWith(db.stages, run, StageFailed))
      && (r.status.RunBlocked? ==> (s.status.RunBlocked? <==> !AnyWith(db.stages, run, StageFailed)))
      && (r.Terminal() ==> s.Terminal())
  {
    assert forall id | id in db.stages && db.stages[id].run == run && db.stages[id].Active() ::
      !db.runs[run].Terminal();
  }

  /**
   * When the gate would leave a run closed over active stage runs:
   * exactly when one of them belongs to no named message.
   */
  lemma GateLeavesNothingActive(db: Db, run: Id, items: seq<GateItem>, now: Time)
    requires GateApplies(db, run, items)
    ensures AnyActive(AfterGate(db, run, items, now).stages, run) <==>
      exists id ::
        id in db.stages && db.stages[id].run == run && db.stages[id].Active()
          && Cause(items, db.stages[id].message).None?
  {
    var v := AfterGate(db, run, items, now);
    if AnyActive(v.stages, run) {
      var id :| id in v.stages && v.stages[id].run == run && v.stages[id].Active();
      assert id in db.stages && !Gated(db.stages[id], run, items);
    }
    if exists id ::
      id in db.stages && db.stages[id].run == run && db.stages[id].Active()
        && Cause(items, db.stages[id].message).None? {
      var id :| id in db.stages && db.stages[id].run == run && db.stages[id].Active()
        && Cause(items, db.stages[id].message).None?;
      assert v.stages[id] == db.stages[id];
    }
  }
}
