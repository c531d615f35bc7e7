/**
 * What the protocol gives only under a condition, with the exact
 * condition: lasting blocks, and labels of reused results.
 */
module StageOutcomes {
  import opened Json
  import opened Leases
  import opened Sanitizer
  import opened StageStore
  import opened StageProtocol
  import opened StageRuns

  // ---------------------------------------------------------------- when a blocked run stays blocked

  /** The stage runs of a terminal run are what they were, and no others have joined. */
  ghost predicate StagesStay(db: Db, v: Db, run: Id) {
    && (forall id | id in v.stages && v.stages[id].run == run :: id in db.stages && v.stages[id] == db.stages[id])
    && (forall id | id in db.stages && db.stages[id].run == run :: id in v.stages && v.stages[id] == db.stages[id])
  }

  lemma RowStepElsewhere(db: Db, v: Db, id: Id, run: Id)
    requires DbInv(db) && RowStep(db, v, id) && run in db.runs && db.runs[run].Terminal()
    ensures StagesStay(db, v, run) && v.runs == db.runs
  {
    assert db.stages[id].run != run;
  }

  lemma ClaimElsewhere(db: Db, id: Id, token: Token, now: Time, until: Time, run: Id)
    requires DbInv(db) && run in db.runs && db.runs[run].Terminal()
    ensures var v := AfterClaim(db, id, token, now, until);
      StagesStay(db, v, run) && run in v.runs && v.runs[run] == db.runs[run]
  {
    assert Claimable(db, id, now) ==> db.stages[id].run != run;
  }

  lemma GateElsewhere(db: Db, gated: Id, items: seq<GateItem>, now: Time, run: Id)
    requires DbInv(db) && run in db.runs && db.runs[run].Terminal()
    ensures var v := AfterGate(db, gated, items, now);
      && StagesStay(db, v, run) && run in v.runs
      && (v.runs[run] == db.runs[run] || v.runs[run].status.RunBlocked?)
  {
  }

  /** The row a step moves under a lease, if any. */
  lemma LeasedElsewhere(w: World, rules: Rules, step: Step, v: World, run: Id)
    requires DbInv(w.db) && Next(w, rules, step, v) && run in w.db.runs && w.db.runs[run].Terminal()
    requires step.CommitHit? || step.Start? || step.Commit? || step.Fail?
    ensures StagesStay(w.db, v.db, run) && v.db.runs == w.db.runs
  {
    match step
    case CommitHit(t, manifest, hit, ids, now) =>
      if Hits(w.db, t, hit.tag, hit.source, now) {
        var mode, labels := ModeOf(w.db, t.stage), LabelsOf(w.db.assignments, hit.source);
        HitIsRowStep(w.db, rules, t, manifest, hit.tag, hit.source, hit.parsed, mode, labels, ids, now);
        RowStepElsewhere(w.db, v.db, t.stage, run);
      }
    case Start(t, manifest, call, tag, now) =>
      if Locked(w.db, t, now) {
        StartIsRowStep(w.db, t, manifest, call, tag, now);
        RowStepElsewhere(w.db, v.db, t.stage, run);
      }
    case Commit(t, call, answer, ids, now) =>
      if Commits(w.db, t, call, now) {
        CommitIsRowStep(w.db, t, call, answer, ModeOf(w.db, t.stage), ids, now);
        RowStepElsewhere(w.db, v.db, t.stage, run);
      }
    case Fail(t, failure, retryAt) =>
      if Locked(w.db, t, failure.at) {
        FailureIsRowStep(w.db, t, failure, retryAt);
        RowStepElsewhere(w.db, v.db, t.stage, run);
      }
  }

  lemma TerminalRunStays(w: World, rules: Rules, step: Step, v: World, run: Id)
    requires DbInv(w.db) && Next(w, rules, step, v) && run in w.db.runs && w.db.runs[run].Terminal()
    ensures StagesStay(w.db, v.db, run) && run in v.db.runs
    ensures v.db.runs[run] == w.db.runs[run] || v.db.runs[run].status.RunBlocked? || (step.RollUp? && step.run == run)
  {
    match step
    case Claim(id, token, now, until) => ClaimElsewhere(w.db, id, token, now, until, run);
    case Gate(gated, items, _, now) => GateElsewhere(w.db, gated, items, now, run);
    case CommitHit(_, _, _, _, _) => LeasedElsewhere(w, rules, step, v, run);
    case Start(_, _, _, _, _) => LeasedElsewhere(w, rules, step, v, run);
    case Commit(_, _, _, _, _) => LeasedElsewhere(w, rules, step, v, run);
    case Fail(_, _, _) => LeasedElsewhere(w, rules, step, v, run);
    case _ =>
  }

  /** Blocked, and none of its stage runs has failed. */
  ghost predicate BlockedFirmly(db: Db, run: Id) {
    run in db.runs && db.runs[run].status.RunBlocked? && !AnyWith(db.stages, run, StageFailed)
  }

  lemma FirmStays(w: World, rules: Rules, step: Step, v: World, run: Id)
    requires DbInv(w.db) && Next(w, rules, step, v) && BlockedFirmly(w.db, run)
    ensures BlockedFirmly(v.db, run)
  {
    TerminalRunStays(w, rules, step, v, run);
    if step.RollUp? && step.run == run { RollUpStatus(w.db, run, step.now); }
  }

  lemma {:induction false} FirmThroughout(rules: Rules, w: World, steps: seq<Step>, worlds: seq<World>, run: Id, n: nat)
    requires DbInv(w.db) && BlockedFirmly(w.db, run) && Continues(rules, w, steps, worlds) && n < |worlds|
    ensures DbInv(worlds[n].db) && BlockedFirmly(worlds[n].db, run)
  {
    if n > 0 {
      FirmThroughout(rules, w, steps, worlds, run, n - 1);
      StepKeepsDb(worlds[n - 1], rules, steps[n - 1], worlds[n]);
      FirmStays(worlds[n - 1], rules, steps[n - 1], worlds[n], run);
    }
  }

  /** Some continuation leaves the run in another status than blocked. */
  ghost predicate Unblocks(rules: Rules, w: World, run: Id) {
    exists steps: seq<Step>, worlds: seq<World> ::
      Continues(rules, w, steps, worlds) && Unblocked(worlds[|worlds| - 1].db, run)
  }

  predicate Unblocked(db: Db, run: Id) { run in db.runs && !db.runs[run].status.RunBlocked? }

  /** A blocked run stays blocked, whatever happens, exactly when none of its stage runs has failed. */
  lemma BlockStaysExactly(rules: Rules, steps: seq<Step>, worlds: seq<World>, n: nat, run: Id)
    requires IsRun(rules, steps, worlds) && n < |worlds|
    requires run in worlds[n].db.runs && worlds[n].db.runs[run].status.RunBlocked?
    ensures Unblocks(rules, worlds[n], run) <==> AnyWith(worlds[n].db.stages, run, StageFailed)
  {
    RunKeeps(rules, steps, worlds, n);
    var w := worlds[n];
    if AnyWith(w.db.stages, run, StageFailed) {
      var v := w.(db := AfterRollUp(w.db, run, 0));
      RollUpStatus(w.db, run, 0);
      assert Next(w, rules, RollUp(run, 0), v);
      assert Continues(rules, w, [RollUp(run, 0)], [w, v]) && Unblocked([w, v][1].db, run);
    } else if Unblocks(rules, w, run) {
      var more: seq<Step>, after: seq<World> :| Continues(rules, w, more, after)
        && Unblocked(after[|after| - 1].db, run);
      FirmThroughout(rules, w, more, after, run, |after| - 1);
    }
  }

  // ---------------------------------------------------------------- what blocks a message

  /** The assignment that blocked the message: stored, activated, negative, and its own. */
  predicate CausedBy(db: Db, message: Id, cause: (Id, Id), i: nat) {
    && i < |db.assignments| && db.assignments[i].stage == cause.0 && db.assignments[i].id == cause.1
    && db.assignments[i].message == message && db.assignments[i].Gates()
  }

  ghost predicate BlockInv(db: Db) {
    forall m | m in db.messages && db.messages[m].blocked ::
      db.messages[m].blockedBy.Some? && exists i: nat :: CausedBy(db, m, db.messages[m].blockedBy.value, i)
  }

  /** Messages stay as they are and assignments are only appended. */
  lemma BlocksCarry(db: Db, v: Db)
    requires BlockInv(db) && db.assignments <= v.assignments
    requires forall m | m in v.messages && v.messages[m].blocked :: m in db.messages && v.messages[m] == db.messages[m]
    ensures BlockInv(v)
  {
    forall m | m in v.messages && v.messages[m].blocked
      ensures v.messages[m].blockedBy.Some? && exists i: nat :: CausedBy(v, m, v.messages[m].blockedBy.value, i)
    {
      var i: nat :| CausedBy(db, m, db.messages[m].blockedBy.value, i);
      assert CausedBy(v, m, v.messages[m].blockedBy.value, i);
    }
  }

  lemma GateBlocks(db: Db, run: Id, items: seq<GateItem>, now: Time)
    requires BlockInv(db)
    ensures BlockInv(AfterGate(db, run, items, now))
  {
    var v := AfterGate(db, run, items, now);
    if GateApplies(db, run, items) {
      forall m | m in v.messages && v.messages[m].blocked
        ensures v.messages[m].blockedBy.Some? && exists i: nat :: CausedBy(v, m, v.messages[m].blockedBy.value, i)
      {
        if db.messages[m].blocked {
          var i: nat :| CausedBy(db, m, db.messages[m].blockedBy.value, i);
          assert CausedBy(v, m, v.messages[m].blockedBy.value, i);
        } else {
          CauseFinds(items, m);
          var item := Cause(items, m).value;
          AssignmentFound(db.assignments, item.assignment);
          FoundHasId(db.assignments, item.assignment);
          var i: nat :| i < |db.assignments|
            && db.assignments[i] == FindAssignment(db.assignments, item.assignment).value;
          assert CausedBy(v, m, v.messages[m].blockedBy.value, i);
        }
      }
    }
  }

  lemma {:induction false} FoundHasId(assignments: seq<Assignment>, id: Id)
    ensures FindAssignment(assignments, id).Some? ==> FindAssignment(assignments, id).value.id == id
  {
    if assignments != [] && assignments[0].id != id { FoundHasId(assignments[1..], id); }
  }

  lemma StepKeepsBlocks(w: World, rules: Rules, step: Step, v: World)
    requires BlockInv(w.db) && Next(w, rules, step, v)
    ensures BlockInv(v.db)
  {
    if step.Gate? { GateBlocks(w.db, step.run, step.items, step.now); } else { BlocksCarry(w.db, v.db); }
  }

  /** Every blocked message was blocked by an activated negative assignment of its own that is still stored. */
  lemma {:induction false} BlocksHaveACause(rules: Rules, steps: seq<Step>, worlds: seq<World>, n: nat)
    requires IsRun(rules, steps, worlds) && n < |worlds|
    ensures BlockInv(worlds[n].db)
  {
    if n > 0 {
      BlocksHaveACause(rules, steps, worlds, n - 1);
      StepKeepsBlocks(worlds[n - 1], rules, steps[n - 1], worlds[n]);
    }
  }

  // ---------------------------------------------------------------- the labels of reused results

  /**
   * A stage run without a result has no labels, nor has one of a test run; a reused result has the labels of the
   * result it was copied from.
   */
  ghost predicate LabelsOk(db: Db, id: Id)
    requires id in db.stages
  {
    var s, labels := db.stages[id], LabelsOf(db.assignments, id);
    && (!s.status.StageSucceeded? || ModeOf(db, id).Test? ==> labels == [])
    && (s.status.StageSucceeded? && s.reusedFrom.Some? && !ModeOf(db, id).Test? ==>
          labels == LabelsOf(db.assignments, s.reusedFrom.value))
  }

  ghost predicate LabelInv(db: Db) { forall id | id in db.stages :: LabelsOk(db, id) }

  lemma {:induction false} LabelsAppend(assignments: seq<Assignment>, labels: seq<Label>, ids: seq<Id>, stage: Id,
      s: StageRun, x: Id)
    requires |ids| == |labels|
    ensures LabelsOf(assignments + NewAssignments(labels, ids, stage, s), x)
      == LabelsOf(assignments, x) + if x == stage then labels else []
  {
    var made := NewAssignments(labels, ids, stage, s);
    if labels == [] {
      assert assignments + made == assignments;
    } else {
      var n := |labels| - 1;
      LabelsAppend(assignments, labels[..n], ids[..n], stage, s, x);
      assert made[..n] == NewAssignments(labels[..n], ids[..n], stage, s);
      assert (assignments + made)[..|assignments| + n] == assignments + made[..n];
      assert labels == labels[..n] + [labels[n]];
    }
  }

  lemma {:induction false} NoAssignmentNoLabel(assignments: seq<Assignment>, x: Id)
    requires forall i | 0 <= i < |assignments| :: assignments[i].stage != x
    ensures LabelsOf(assignments, x) == []
  {
    if assignments != [] { NoAssignmentNoLabel(assignments[..|assignments| - 1], x); }
  }

  /** Stage runs keep their analysis run, and analysis runs their mode. */
  ghost predicate ModesStay(db: Db, v: Db) {
    forall id | id in db.stages :: id in v.stages && ModeOf(v, id) == ModeOf(db, id)
  }

  ghost predicate RunsKeepMode(db: Db, v: Db) {
    forall r | r in db.runs :: r in v.runs && v.runs[r].mode == db.runs[r].mode
  }

  ghost predicate StagesKeepRun(db: Db, v: Db) {
    forall id | id in db.stages :: id in v.stages && v.stages[id].run == db.stages[id].run
  }

  lemma RunsKeepTheirMode(w: World, rules: Rules, step: Step, v: World)
    requires Next(w, rules, step, v)
    ensures RunsKeepMode(w.db, v.db)
  {
  }

  lemma StagesKeepTheirRun(w: World, rules: Rules, step: Step, v: World)
    requires Next(w, rules, step, v)
    ensures StagesKeepRun(w.db, v.db)
  {
  }

  lemma StepKeepsModes(w: World, rules: Rules, step: Step, v: World)
    requires DbInv(w.db) && Next(w, rules, step, v)
    ensures ModesStay(w.db, v.db)
  {
    RunsKeepTheirMode(w, rules, step, v);
    StagesKeepTheirRun(w, rules, step, v);
    ModesFollow(w.db, v.db);
  }

  lemma ModesFollow(db: Db, v: Db)
    requires Linked(db) && RunsKeepMode(db, v) && StagesKeepRun(db, v)
    ensures ModesStay(db, v)
  {
  }

  /** A step that assigns nothing and completes no stage run. */
  lemma UnlabelledKeeps(w: World, rules: Rules, step: Step, v: World)
    requires DbInv(w.db) && LabelInv(w.db) && Next(w, rules, step, v)
    requires v.db.assignments == w.db.assignments && Succeeding(w.db, step).None?
    ensures LabelInv(v.db)
  {
    SucceededAreFinal(w, rules, step, v);
    StepKeepsModes(w, rules, step, v);
    forall id | id in v.db.stages ensures LabelsOk(v.db, id) {
      if v.db.stages[id].status.StageSucceeded? { NewlySucceeded(w, rules, step, v, id); }
      if id in w.db.stages { assert LabelsOk(w.db, id); } else { NoAssignmentNoLabel(w.db.assignments, id); }
    }
  }

  /** One row succeeds, and its labels are the only ones that change. */
  ghost predicate Labelled(db: Db, v: Db, id: Id) {
    && RowStep(db, v, id) && v.stages[id].status.StageSucceeded? && !db.stages[id].status.StageSucceeded?
    && forall x :: x != id ==> LabelsOf(v.assignments, x) == LabelsOf(db.assignments, x)
  }

  lemma LabelledKeeps(db: Db, v: Db, id: Id)
    requires DbInv(db) && LabelInv(db) && Labelled(db, v, id) && LabelsOk(v, id)
    requires forall x | x in db.stages && db.stages[x].reusedFrom.Some? :: db.stages[x].reusedFrom.value != id
    ensures LabelInv(v)
  {
    forall x | x in v.stages ensures LabelsOk(v, x) {
      if x != id { assert LabelsOk(db, x) && ModeOf(v, x) == ModeOf(db, x); }
    }
  }

  /** Nothing was reused from a row that has not succeeded. */
  lemma NotYetReused(w: World, rules: Rules, id: Id)
    requires DbInv(w.db) && CacheInv(w, rules) && id in w.db.stages && !w.db.stages[id].status.StageSucceeded?
    ensures forall x | x in w.db.stages && w.db.stages[x].reusedFrom.Some? :: w.db.stages[x].reusedFrom.value != id
  {
    forall x | x in w.db.stages && w.db.stages[x].reusedFrom.Some? ensures w.db.stages[x].reusedFrom.value != id {
      assert StageChecks(w.db.stages[x]) && Reused(w, rules, x);
    }
  }

  lemma HitLabels(w: World, rules: Rules, step: Step, v: World)
    requires DbInv(w.db) && CacheInv(w, rules) && LabelInv(w.db) && Next(w, rules, step, v) && step.CommitHit?
    requires Hits(w.db, step.t, step.hit.tag, step.hit.source, step.now)
    ensures LabelInv(v.db)
  {
    var id, source := step.t.stage, step.hit.source;
    var mode, labels := ModeOf(w.db, id), LabelsOf(w.db.assignments, source);
    HitIsRowStep(w.db, rules, step.t, step.manifest, step.hit.tag, source, step.hit.parsed, mode, labels, step.ids,
      step.now);
    forall x { LabelsAppend(w.db.assignments, labels, step.ids, id, w.db.stages[id], x); }
    NotYetReused(w, rules, id);
    assert LabelsOk(w.db, id) && source != id;
    LabelledKeeps(w.db, v.db, id);
  }

  lemma CommitLabels(w: World, rules: Rules, step: Step, v: World)
    requires DbInv(w.db) && CacheInv(w, rules) && LabelInv(w.db) && Next(w, rules, step, v) && step.Commit?
    requires Commits(w.db, step.t, step.call, step.now)
    ensures LabelInv(v.db)
  {
    var id := step.t.stage;
    CommitIsRowStep(w.db, step.t, step.call, step.answer, ModeOf(w.db, id), step.ids, step.now);
    forall x { LabelsAppend(w.db.assignments, step.answer.labels, step.ids, id, w.db.stages[id], x); }
    NotYetReused(w, rules, id);
    assert LabelsOk(w.db, id);
    LabelledKeeps(w.db, v.db, id);
  }

  lemma StepKeepsLabels(w: World, rules: Rules, step: Step, v: World)
    requires DbInv(w.db) && CacheInv(w, rules) && LabelInv(w.db) && Next(w, rules, step, v)
    ensures LabelInv(v.db)
  {
    if Succeeding(w.db, step).None? {
      UnlabelledKeeps(w, rules, step, v);
    } else if step.CommitHit? {
      HitLabels(w, rules, step, v);
    } else {
      CommitLabels(w, rules, step, v);
    }
  }

  lemma {:induction false} LabelsThroughout(rules: Rules, steps: seq<Step>, worlds: seq<World>, n: nat)
    requires IsRun(rules, steps, worlds) && n < |worlds|
    ensures LabelInv(worlds[n].db)
  {
    if n > 0 {
      LabelsThroughout(rules, steps, worlds, n - 1);
      RunKeeps(rules, steps, worlds, n - 1);
      StepKeepsLabels(worlds[n - 1], rules, steps[n - 1], worlds[n]);
    }
  }

  /** Some row of the path, its origin aside, belongs to a test run. */
  predicate Tested(db: Db, path: seq<Id>) { exists i | 0 <= i < |path| - 1 :: ModeOf(db, path[i]).Test? }

  /** The labels of a stage run are the verdicts of its assignments, in the order they were made. */
  lemma {:induction false} LabelsAreOf(assignments: seq<Assignment>, stage: Id) returns (at: seq<nat>)
    ensures |at| == |LabelsOf(assignments, stage)|
    ensures forall k | 0 <= k < |at| ::
      at[k] < |assignments| && assignments[at[k]].stage == stage
        && assignments[at[k]].verdict == LabelsOf(assignments, stage)[k]
    ensures forall k, l | 0 <= k < l < |at| :: at[k] < at[l]
    ensures forall i | 0 <= i < |assignments| && assignments[i].stage == stage :: i in at
  {
    if assignments == [] {
      at := [];
    } else {
      var n := |assignments| - 1;
      at := LabelsAreOf(assignments[..n], stage);
      if assignments[n].stage == stage { at := at + [n]; }
    }
  }

  /** Along a path of reuse the labels of the origin are handed on until a test run drops them. */
  lemma {:induction false} LabelsAlong(w: World, path: seq<Id>)
    requires DbInv(w.db) && LabelInv(w.db) && ReusePath(w, path)
    ensures LabelsOf(w.db.assignments, path[0]) ==
      if Tested(w.db, path) then [] else LabelsOf(w.db.assignments, path[|path| - 1])
  {
    if |path| > 1 {
      var rest := path[1..];
      assert ReusePath(w, rest) by {
        forall i | 0 <= i < |rest| - 1
          ensures w.db.stages[rest[i]].reusedFrom == Some(rest[i + 1]) && w.ranks[rest[i + 1]] < w.ranks[rest[i]]
        {
          assert rest[i] == path[i + 1] && rest[i + 1] == path[i + 2];
        }
      }
      LabelsAlong(w, rest);
      assert LabelsOk(w.db, path[0]) && StageChecks(w.db.stages[path[0]]);
      if Tested(w.db, rest) {
        var i :| 0 <= i < |rest| - 1 && ModeOf(w.db, rest[i]).Test?;
        assert ModeOf(w.db, path[i + 1]).Test?;
      }
      if Tested(w.db, path) && !ModeOf(w.db, path[0]).Test? {
        var i :| 0 <= i < |path| - 1 && ModeOf(w.db, path[i]).Test?;
        assert rest[i - 1] == path[i];
      }
    }
  }

  /**
   * A cached result carries the labels of the inference it came from exactly when no test run reused it on the way,
   * or there were none; otherwise it carries none.
   */
  lemma CachedLabelsExactly(rules: Rules, steps: seq<Step>, worlds: seq<World>, n: nat, id: Id) returns (path: seq<Id>)
    requires rules.Valid() && IsRun(rules, steps, worlds) && n < |worlds|
    requires id in worlds[n].db.stages && worlds[n].db.stages[id].origin == Some(Cache)
    ensures ReusePath(worlds[n], path) && path[0] == id
    ensures worlds[n].db.stages[path[|path| - 1]].origin == Some(Inference)
    ensures var db, origin := worlds[n].db, path[|path| - 1];
      && LabelsOf(db.assignments, id) == (if Tested(db, path) then [] else LabelsOf(db.assignments, origin))
      && (LabelsOf(db.assignments, id) == LabelsOf(db.assignments, origin) <==>
          !Tested(db, path) || LabelsOf(db.assignments, origin) == [])
  {
    RunKeeps(rules, steps, worlds, n);
    LabelsThroughout(rules, steps, worlds, n);
    path := ReuseEnds(worlds[n], rules, id);
    LabelsAlong(worlds[n], path);
  }
}
