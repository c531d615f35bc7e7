/** What the stage protocol gets done: active stage runs are claimed in time, and what each transaction does to rows. */
module StageProgress {
  import opened Json
  import opened Leases
  import opened Sanitizer
  import opened StageStore
  import opened StageProtocol
  import opened StageRuns

  // ---------------------------------------------------------------- claiming

  /** The row under a new lease: one attempt more, started when it first started. */
  predicate LeasedNow(s: StageRun, t: StageRun, token: Token, now: Time, until: Time) {
    && t.status.StageRunning? && t.token == Some(token) && t.expires == Some(until) && t.nextRetry.None?
    && t.attempts == s.attempts + 1 && t.startedAt == (if s.startedAt.Some? then s.startedAt else Some(now))
    && t == s.(status := t.status, token := t.token, expires := t.expires, nextRetry := t.nextRetry,
               attempts := t.attempts, startedAt := t.startedAt)
  }

  /** The run is under way, started when it first started. */
  predicate UnderWay(r: AnalysisRun, v: AnalysisRun, now: Time) {
    && v.status.RunRunning? && v.completedAt.None?
    && v.startedAt == (if r.startedAt.Some? then r.startedAt else Some(now))
    && v.message == r.message && v.mode == r.mode
  }

  /** The run is over with this status since `at`. */
  predicate Over(r: AnalysisRun, v: AnalysisRun, status: RunStatus, now: Time, at: Time) {
    && v.status == status && v.completedAt == Some(at)
    && v.startedAt == (if r.startedAt.Some? then r.startedAt else Some(now))
    && v.message == r.message && v.mode == r.mode
  }

  /** A stage run waits for a worker: it is pending, its retry time has come, or its lease has ended. */
  predicate Waits(s: StageRun, now: Time) {
    || s.status.StagePending?
    || (s.status.StageRetryWait? && s.nextRetry.Some? && s.nextRetry.value <= now)
    || (s.status.StageRunning? && s.expires.Some? && s.expires.value <= now)
  }

  /** With attempts left a stage run of an open run is claimed exactly when it waits; else a claim changes nothing. */
  lemma ClaimedExactly(w: World, rules: Rules, v: World, id: Id, token: Token, now: Time, until: Time)
    requires DbInv(w.db) && Next(w, rules, Claim(id, token, now, until), v) && id in w.db.stages
    requires w.db.stages[id].attempts < w.db.stages[id].maxAttempts
    ensures var s := w.db.stages[id];
      if Waits(s, now) then
        && id in v.db.stages && LeasedNow(s, v.db.stages[id], token, now, until)
        && s.run in w.db.runs && s.run in v.db.runs && UnderWay(w.db.runs[s.run], v.db.runs[s.run], now)
        && v.db == w.db.(stages := w.db.stages[id := v.db.stages[id]], runs := w.db.runs[s.run := v.db.runs[s.run]])
      else v.db == w.db
  {
    assert StageChecks(w.db.stages[id]);
  }

  /** When an active stage run is free to be claimed. */
  function FreeFrom(s: StageRun): Time
    requires StageChecks(s)
  {
    if s.status.StageRetryWait? then s.nextRetry.value else if s.status.StageRunning? then s.expires.value else 0
  }

  /** In every reachable state each active stage run with attempts left is claimed by any claim from a time on. */
  lemma ClaimedFromSomeTime(rules: Rules, steps: seq<Step>, worlds: seq<World>, n: nat, id: Id) returns (from: Time)
    requires IsRun(rules, steps, worlds) && n < |worlds| && id in worlds[n].db.stages
    requires worlds[n].db.stages[id].Active() && worlds[n].db.stages[id].attempts < worlds[n].db.stages[id].maxAttempts
    ensures forall token, now, until, v | Next(worlds[n], rules, Claim(id, token, now, until), v) && now >= from ::
      id in v.db.stages && LeasedNow(worlds[n].db.stages[id], v.db.stages[id], token, now, until)
  {
    RunKeeps(rules, steps, worlds, n);
    var s := worlds[n].db.stages[id];
    assert StageChecks(s);
    from := FreeFrom(s);
    forall token, now, until, v | Next(worlds[n], rules, Claim(id, token, now, until), v) && now >= from
      ensures id in v.db.stages && LeasedNow(s, v.db.stages[id], token, now, until)
    {
      ClaimedExactly(worlds[n], rules, v, id, token, now, until);
    }
  }

  /** Failed for good. */
  predicate FailedNow(s: StageRun, t: StageRun, failure: Failure) {
    t == s.(status := StageFailed, nextRetry := None, token := None, expires := None, failure := Some(failure),
            completedAt := Some(failure.at))
  }

  predicate ActiveIn(stages: map<Id, StageRun>, run: Id, id: Id) {
    && id in stages && stages[id].run == run
    && (stages[id].status.StagePending? || stages[id].status.StageRunning? || stages[id].status.StageRetryWait?)
  }

  /**
   * Without attempts left an active stage run is given up by any claim once its lease has ended; its run fails unless
   * other stage runs of it are active.
   */
  lemma GivenUpFromSomeTime(rules: Rules, steps: seq<Step>, worlds: seq<World>, n: nat, id: Id) returns (from: Time)
    requires IsRun(rules, steps, worlds) && n < |worlds| && id in worlds[n].db.stages
    requires worlds[n].db.stages[id].Active() && worlds[n].db.stages[id].attempts >= worlds[n].db.stages[id].maxAttempts
    ensures forall token, now, until, v | Next(worlds[n], rules, Claim(id, token, now, until), v) ::
      var db, s := worlds[n].db, worlds[n].db.stages[id];
      if now < from then v.db == db
      else
        && id in v.db.stages
        && FailedNow(s, v.db.stages[id], Failure("LEASE_EXPIRED", "WorkerLeaseExpired", false, now))
        && v.db.stages == db.stages[id := v.db.stages[id]] && s.run in db.runs && s.run in v.db.runs
        && v.db.runs == db.runs[s.run := v.db.runs[s.run]] && v.db.assignments == db.assignments
        && if exists x :: x != id && ActiveIn(db.stages, s.run, x) then UnderWay(db.runs[s.run], v.db.runs[s.run], now)
           else Over(db.runs[s.run], v.db.runs[s.run], RunFailed, now, now)
  {
    RunKeeps(rules, steps, worlds, n);
    var db, s := worlds[n].db, worlds[n].db.stages[id];
    assert StageChecks(s);
    from := s.expires.value;
    forall token, now, until, v | Next(worlds[n], rules, Claim(id, token, now, until), v) && now >= from
      ensures AnyActive(v.db.stages, s.run) <==> exists x :: x != id && ActiveIn(db.stages, s.run, x)
    {
      OthersActive(db.stages, v.db.stages, s.run, id);
    }
  }

  /** With one row over, the run is active exactly by its other rows. */
  lemma OthersActive(stages: map<Id, StageRun>, after: map<Id, StageRun>, run: Id, id: Id)
    requires id in stages && id in after && after == stages[id := after[id]] && !after[id].Active()
    ensures AnyActive(after, run) <==> exists x :: x != id && ActiveIn(stages, run, x)
  {
    if AnyActive(after, run) {
      var x :| x in after && after[x].run == run && after[x].Active();
      assert ActiveIn(stages, run, x);
    }
    if x :| x != id && ActiveIn(stages, run, x) { assert after[x].run == run && after[x].Active(); }
  }

  // ---------------------------------------------------------------- working under a lease

  /** The lease as the row states it, for the very target of the snapshot. */
  predicate Under(db: Db, t: Target, now: Time) {
    && t.stage in db.stages && db.stages[t.stage].status.StageRunning? && db.stages[t.stage].token == Some(t.token)
    && db.stages[t.stage].expires.Some? && db.stages[t.stage].expires.value > now
    && db.stages[t.stage].target == t.target
  }

  lemma StartedExactly(w: World, rules: Rules, v: World, t: Target, manifest: Id, call: Id, tag: CacheTag, now: Time)
    requires Next(w, rules, Start(t, manifest, call, tag, now), v)
    ensures v.db ==
      if Under(w.db, t, now) then
        w.db.(stages := w.db.stages[t.stage :=
          w.db.stages[t.stage].(manifest := Some(manifest), call := Some(call), tag := tag)])
      else w.db
  {
  }

  /** A failure under the lease is retried exactly when it is retryable and attempts are left. */
  lemma FailedExactly(w: World, rules: Rules, v: World, t: Target, failure: Failure, retryAt: Time)
    requires Next(w, rules, Fail(t, failure, retryAt), v)
    ensures
      if !Under(w.db, t, failure.at) then v.db == w.db
      else
        var s := w.db.stages[t.stage];
        && t.stage in v.db.stages && v.db == w.db.(stages := w.db.stages[t.stage := v.db.stages[t.stage]])
        && if failure.retryable && s.attempts < s.maxAttempts then
             v.db.stages[t.stage] == s.(status := StageRetryWait, nextRetry := Some(retryAt), token := None,
               expires := None, failure := Some(failure), completedAt := None)
           else FailedNow(s, v.db.stages[t.stage], failure)
  {
  }

  /** Succeeded with a result of its own or a copied one; lease, retry time and earlier failure are gone. */
  predicate SucceededNow(s: StageRun, t: StageRun, document: Json, origin: Origin, source: Option<Id>, now: Time) {
    t == s.(status := StageSucceeded, result := Some(document), origin := Some(origin), reusedFrom := source,
            completedAt := Some(now), nextRetry := None, token := None, expires := None, failure := None)
  }

  /** The new assignments: one for each label, of the row, its run and its message; none in a test run. */
  predicate Assigned(db: Db, v: Db, stage: Id, mode: RunMode, labels: seq<Label>, ids: seq<Id>)
    requires stage in db.stages && |ids| == |labels|
  {
    var n := |db.assignments|;
    && |v.assignments| == n + (if mode.Test? then 0 else |labels|) && v.assignments[..n] == db.assignments
    && forall i | 0 <= i < |v.assignments| - n ::
         v.assignments[n + i] == Assignment(ids[i], stage, db.stages[stage].run, db.stages[stage].message, labels[i])
  }

  /** A result is stored exactly under the lease and by the call that was started last. */
  lemma CommittedExactly(w: World, rules: Rules, v: World, t: Target, call: Id, answer: Answer, ids: seq<Id>, now: Time)
    requires DbInv(w.db) && Next(w, rules, Commit(t, call, answer, ids, now), v)
    ensures
      if Under(w.db, t, now) && w.db.stages[t.stage].call == Some(call) then
        && t.stage in v.db.stages && w.db.stages[t.stage].run in w.db.runs
        && SucceededNow(w.db.stages[t.stage], v.db.stages[t.stage], answer.document, Inference, None, now)
        && v.db == w.db.(stages := w.db.stages[t.stage := v.db.stages[t.stage]], assignments := v.db.assignments)
        && Assigned(w.db, v.db, t.stage, w.db.runs[w.db.stages[t.stage].run].mode, answer.labels, ids)
      else v.db == w.db
  {
  }

  // ---------------------------------------------------------------- the gate and the roll-up

  /** The first stored assignment with this ID. */
  ghost predicate Names(assignments: seq<Assignment>, id: Id, i: nat) {
    i < |assignments| && assignments[i].id == id && forall j | 0 <= j < i :: assignments[j].id != id
  }

  lemma {:induction false} FindsFirst(assignments: seq<Assignment>, id: Id)
    ensures match FindAssignment(assignments, id)
      case None => forall i | 0 <= i < |assignments| :: assignments[i].id != id
      case Some(a) => exists i: nat :: Names(assignments, id, i) && assignments[i] == a
  {
    if assignments != [] {
      if assignments[0].id == id {
        assert Names(assignments, id, 0);
      } else {
        FindsFirst(assignments[1..], id);
        if FindAssignment(assignments, id).Some? {
          var i: nat :| Names(assignments[1..], id, i) && assignments[1..][i] == FindAssignment(assignments, id).value;
          assert forall j | 0 < j < i + 1 :: assignments[j] == assignments[1..][j - 1];
          assert Names(assignments, id, i + 1);
        } else {
          assert forall j | 0 < j < |assignments| :: assignments[j] == assignments[1..][j - 1];
        }
      }
    }
  }

  /** The item is backed by a stored, activated, negative assignment of this run, message and stage run. */
  ghost predicate Backed(db: Db, run: Id, item: GateItem) {
    exists i: nat ::
      && Names(db.assignments, item.assignment, i)
      && var a := db.assignments[i];
      a.run == run && a.message == item.message && a.stage == item.stage && a.verdict.activated && a.verdict.negative
  }

  lemma HoldsMeansBacked(db: Db, run: Id, item: GateItem)
    ensures ItemHolds(db, run, item) <==> Backed(db, run, item)
  {
    FindsFirst(db.assignments, item.assignment);
  }

  /** The gate applies exactly to backed items of a run that is not a test. */
  lemma GateAppliesExactly(db: Db, run: Id, items: seq<GateItem>)
    ensures GateApplies(db, run, items) <==>
      && items != [] && run in db.runs && !db.runs[run].mode.Test?
      && forall i | 0 <= i < |items| :: Backed(db, run, items[i]) && items[i].message in db.messages
  {
    forall i | 0 <= i < |items| ensures ItemHolds(db, run, items[i]) <==> Backed(db, run, items[i]) {
      HoldsMeansBacked(db, run, items[i]);
    }
  }

  /** The first item about the message. */
  predicate FirstAbout(items: seq<GateItem>, message: Id, i: nat) {
    i < |items| && items[i].message == message && forall j | 0 <= j < i :: items[j].message != message
  }

  lemma {:induction false} CauseIsFirst(items: seq<GateItem>, message: Id)
    ensures match Cause(items, message)
      case None => forall i | 0 <= i < |items| :: items[i].message != message
      case Some(item) => exists i: nat :: FirstAbout(items, message, i) && items[i] == item
  {
    if items != [] {
      if items[0].message == message {
        assert FirstAbout(items, message, 0);
      } else {
        CauseIsFirst(items[1..], message);
        if Cause(items, message).Some? {
          var i: nat :| FirstAbout(items[1..], message, i) && items[1..][i] == Cause(items, message).value;
          assert forall j | 0 < j < i + 1 :: items[j] == items[1..][j - 1];
          assert FirstAbout(items, message, i + 1);
        } else {
          assert forall j | 0 < j < |items| :: items[j] == items[1..][j - 1];
        }
      }
    }
  }

  /** Some item is about the message. */
  ghost predicate Mentioned(items: seq<GateItem>, message: Id) { exists i: nat :: FirstAbout(items, message, i) }

  /** Messages become blocked by the first item about them; those already blocked keep their cause. */
  ghost predicate BlockedBy(messages: map<Id, Message>, after: map<Id, Message>, items: seq<GateItem>, now: Time) {
    && after.Keys == messages.Keys
    && forall m | m in messages ::
         if messages[m].blocked || !Mentioned(items, m) then after[m] == messages[m]
         else exists i: nat | FirstAbout(items, m, i) ::
           after[m] == Message(true, Some(now), Some((items[i].stage, items[i].assignment)))
  }

  /** The run's active stage runs about those messages are skipped, all other stage runs untouched. */
  ghost predicate SkippedBy(stages: map<Id, StageRun>, after: map<Id, StageRun>, run: Id, items: seq<GateItem>,
      now: Time)
  {
    && after.Keys == stages.Keys
    && forall id | id in stages ::
         if ActiveIn(stages, run, id) && Mentioned(items, stages[id].message) then
           after[id] == stages[id].(status := StageSkippedGate, nextRetry := None, token := None, expires := None,
             completedAt := Some(now))
         else after[id] == stages[id]
  }

  lemma MentionedHasCause(items: seq<GateItem>, message: Id)
    ensures Mentioned(items, message) <==> Cause(items, message).Some?
    ensures Cause(items, message).Some? ==>
      exists i: nat :: FirstAbout(items, message, i) && items[i] == Cause(items, message).value
  {
    CauseIsFirst(items, message);
  }

  lemma GatedExactly(w: World, rules: Rules, v: World, run: Id, items: seq<GateItem>, gated: seq<Id>, now: Time)
    requires Next(w, rules, Gate(run, items, gated, now), v)
    ensures
      if GateApplies(w.db, run, items) then
        && BlockedBy(w.db.messages, v.db.messages, items, now)
        && SkippedBy(w.db.stages, v.db.stages, run, items, now)
        && run in v.db.runs && Over(w.db.runs[run], v.db.runs[run], RunBlocked, now, now)
        && v.db.runs == w.db.runs[run := v.db.runs[run]] && v.db.assignments == w.db.assignments
      else v.db == w.db
  {
    forall m ensures Mentioned(items, m) <==> Cause(items, m).Some?
             ensures Cause(items, m).Some? ==>
               exists i: nat :: FirstAbout(items, m, i) && items[i] == Cause(items, m).value
    {
      MentionedHasCause(items, m);
    }
  }

  predicate SomeWith(stages: map<Id, StageRun>, run: Id, status: StageStatus) {
    exists id :: id in stages && stages[id].run == run && stages[id].status == status
  }

  /** The roll-up: under way while anything is active, else failed, else blocked, else completed. */
  lemma RolledUpExactly(w: World, rules: Rules, v: World, run: Id, now: Time)
    requires Next(w, rules, RollUp(run, now), v) && run in w.db.runs
    ensures run in v.db.runs && v.db == w.db.(runs := w.db.runs[run := v.db.runs[run]])
    ensures var r, s, stages := w.db.runs[run], v.db.runs[run], w.db.stages;
      if exists id :: ActiveIn(stages, run, id) then UnderWay(r, s, now)
      else if SomeWith(stages, run, StageFailed) then Over(r, s, RunFailed, now, now)
      else if r.status.RunBlocked? || SomeWith(stages, run, StageSkippedGate) then
        Over(r, s, RunBlocked, now, if r.completedAt.Some? then r.completedAt.value else now)
      else Over(r, s, RunCompleted, now, now)
  {
    assert (exists id :: ActiveIn(w.db.stages, run, id)) <==> AnyActive(w.db.stages, run) by {
      if AnyActive(w.db.stages, run) {
        var id :| id in w.db.stages && w.db.stages[id].run == run && w.db.stages[id].Active();
        assert ActiveIn(w.db.stages, run, id);
      }
    }
    assert forall status :: SomeWith(w.db.stages, run, status) <==> AnyWith(w.db.stages, run, status);
  }

  // ---------------------------------------------------------------- from any state to a result

  /** Some steps lead from one state to the other. */
  ghost predicate Reaches(rules: Rules, w: World, v: World) {
    exists steps, worlds :: Continues(rules, w, steps, worlds) && worlds[|steps|] == v
  }

  lemma ReachesNext(rules: Rules, w: World, step: Step, v: World)
    requires Next(w, rules, step, v)
    ensures Reaches(rules, w, v)
  {
    assert Continues(rules, w, [step], [w, v]);
  }

  lemma ReachesOn(rules: Rules, w: World, v: World, x: World)
    requires Reaches(rules, w, v) && Reaches(rules, v, x)
    ensures Reaches(rules, w, x)
  {
    var steps, worlds :| Continues(rules, w, steps, worlds) && worlds[|steps|] == v;
    var more, then_ :| Continues(rules, v, more, then_) && then_[|more|] == x;
    Joined(rules, w, steps, worlds, more, then_);
  }

  lemma Joined(rules: Rules, w: World, steps: seq<Step>, worlds: seq<World>, more: seq<Step>, then_: seq<World>)
    requires Continues(rules, w, steps, worlds) && Continues(rules, worlds[|steps|], more, then_)
    ensures Reaches(rules, w, then_[|more|])
  {
    var all, states := steps + more, worlds + then_[1..];
    forall i | 0 <= i < |all| ensures Next(states[i], rules, all[i], states[i + 1]) {
      if i < |steps| {
        assert states[i] == worlds[i] && states[i + 1] == worlds[i + 1];
      } else {
        assert states[i] == then_[i - |steps|] && states[i + 1] == then_[i - |steps| + 1];
      }
    }
    assert Continues(rules, w, all, states) && states[|all|] == then_[|more|];
  }

  function After(w: World, rules: Rules, step: Step): World
    requires step.CommitHit? ==> |step.ids| == |LabelsOf(w.db.assignments, step.hit.source)|
    requires step.Commit? ==> |step.ids| == |step.answer.labels|
  {
    World(
      DbAfter(w.db, rules, step), w.issued + (if step.Claim? then {step.token} else {}),
      w.log + EventsOf(w.db, step), w.hits + (if step.FindHit? then {step.hit} else {}),
      match Succeeding(w.db, step) case Some(t) => w.ranks[t.stage := |w.log|] case None => w.ranks)
  }

  function TargetOf(s: StageRun, id: Id, token: Token): Target { Target(id, token, s.target) }

  lemma TakeWaiting(rules: Rules, w: World, id: Id, token: Token, now: Time) returns (v: World)
    requires DbInv(w.db) && id in w.db.stages && token !in w.issued && Waits(w.db.stages[id], now)
    requires w.db.stages[id].attempts < w.db.stages[id].maxAttempts
    ensures Reaches(rules, w, v) && DbInv(v.db)
    ensures Under(v.db, TargetOf(w.db.stages[id], id, token), now)
  {
    var claim := Claim(id, token, now, now + 1);
    v := After(w, rules, claim);
    ClaimedExactly(w, rules, v, id, token, now, now + 1);
    ClaimKeeps(w.db, id, token, now, now + 1);
    ReachesNext(rules, w, claim, v);
  }

  lemma StartHeld(rules: Rules, w: World, t: Target, manifest: Id, call: Id, tag: CacheTag, now: Time)
      returns (v: World)
    requires DbInv(w.db) && Under(w.db, t, now)
    ensures Reaches(rules, w, v) && DbInv(v.db) && Under(v.db, t, now) && v.db.stages[t.stage].call == Some(call)
  {
    var start := Start(t, manifest, call, tag, now);
    v := After(w, rules, start);
    StartedExactly(w, rules, v, t, manifest, call, tag, now);
    StartIsRowStep(w.db, t, manifest, call, tag, now);
    RowKeeps(w.db, v.db, t.stage);
    ReachesNext(rules, w, start, v);
  }

  lemma CommitStarted(rules: Rules, w: World, t: Target, call: Id, answer: Answer, ids: seq<Id>, now: Time)
      returns (v: World)
    requires DbInv(w.db) && Under(w.db, t, now) && w.db.stages[t.stage].call == Some(call)
    requires |ids| == |answer.labels| && answer.document.Obj?
    ensures Reaches(rules, w, v) && t.stage in v.db.stages && v.db.stages[t.stage].status.StageSucceeded?
    ensures v.db.stages[t.stage].result == Some(answer.document)
  {
    var commit := Commit(t, call, answer, ids, now);
    v := After(w, rules, commit);
    CommittedExactly(w, rules, v, t, call, answer, ids, now);
    ReachesNext(rules, w, commit, v);
  }

  /** From every reachable state any active stage run with attempts left can succeed with any answer. */
  lemma EveryStageRunCanSucceed(rules: Rules, steps: seq<Step>, worlds: seq<World>, n: nat, id: Id, token: Token,
      manifest: Id, call: Id, tag: CacheTag, answer: Answer, ids: seq<Id>)
      returns (v: World)
    requires IsRun(rules, steps, worlds) && n < |worlds| && id in worlds[n].db.stages && token !in worlds[n].issued
    requires worlds[n].db.stages[id].Active() && worlds[n].db.stages[id].attempts < worlds[n].db.stages[id].maxAttempts
    requires |ids| == |answer.labels| && answer.document.Obj?
    ensures Reaches(rules, worlds[n], v) && id in v.db.stages && v.db.stages[id].status.StageSucceeded?
    ensures v.db.stages[id].result == Some(answer.document)
  {
    RunKeeps(rules, steps, worlds, n);
    var w, s := worlds[n], worlds[n].db.stages[id];
    assert StageChecks(s);
    var now := FreeFrom(s);
    var t := TargetOf(s, id, token);
    var taken := TakeWaiting(rules, w, id, token, now);
    var started := StartHeld(rules, taken, t, manifest, call, tag, now);
    v := CommitStarted(rules, started, t, call, answer, ids, now);
    ReachesOn(rules, w, taken, started);
    ReachesOn(rules, w, started, v);
  }
}
