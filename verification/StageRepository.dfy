/**
 * The stage run repository, changing its tables in place; a transaction
 * over several targets changes their rows in turn.
 */
module StageRepository {
  import opened Json
  import opened Sanitizer
  import opened StageStore

  // ---------------------------------------------------------------- transactions over several targets

  predicate DistinctTargets(targets: seq<Target>) {
    forall i, j | 0 <= i < j < |targets| ::
      targets[i].stage != targets[j].stage && targets[i].target != targets[j].target
  }

  function TargetFor(targets: seq<Target>, name: string): Option<Target> {
    if targets == [] then None else if targets[0].target == name then Some(targets[0])
      else TargetFor(targets[1..], name)
  }

  /** What every row of a cache commit is written from. */
  datatype Reuse = Reuse(manifest: Id, tag: CacheTag, source: Id, parsed: Json, labels: seq<Label>)

  function HitAll(db: Db, rules: Rules, targets: seq<Target>, reuse: Reuse, mode: RunMode, ids: seq<seq<Id>>,
      now: Time): Db
    requires |ids| == |targets| && forall i | 0 <= i < |ids| :: |ids[i]| == |reuse.labels|
  {
    if targets == [] then db
    else
      var n := |targets| - 1;
      AfterHit(HitAll(db, rules, targets[..n], reuse, mode, ids[..n], now), rules, targets[n],
               reuse.manifest, reuse.tag, reuse.source, reuse.parsed, mode, reuse.labels, ids[n], now)
  }

  function StartAll(db: Db, targets: seq<Target>, manifest: Id, call: Id, tag: CacheTag, now: Time): Db {
    if targets == [] then db
    else
      var n := |targets| - 1;
      AfterStart(StartAll(db, targets[..n], manifest, call, tag, now), targets[n], manifest, call, tag, now)
  }

  predicate AllLocked(db: Db, targets: seq<Target>, now: Time) {
    forall i | 0 <= i < |targets| :: Locked(db, targets[i], now)
  }

  function CommitAll(db: Db, targets: seq<Target>, call: Id, answers: seq<Answer>, mode: RunMode, ids: seq<seq<Id>>,
      now: Time): Db
    requires |ids| == |answers| && forall i | 0 <= i < |ids| :: |ids[i]| == |answers[i].labels|
  {
    if answers == [] then db
    else
      var n := |answers| - 1;
      var before := CommitAll(db, targets, call, answers[..n], mode, ids[..n], now);
      match TargetFor(targets, answers[n].target)
      case None => before
      case Some(t) => AfterCommit(before, t, call, answers[n], mode, ids[n], now)
  }

  /** One failure for each named target. */
  function FailEach(db: Db, targets: seq<Target>, names: seq<string>, failures: seq<Failure>, retryAt: Time): Db
    requires |failures| == |names|
  {
    if names == [] then db
    else
      var n := |names| - 1;
      var before := FailEach(db, targets, names[..n], failures[..n], retryAt);
      match TargetFor(targets, names[n])
      case None => before
      case Some(t) => AfterFailure(before, t, failures[n], retryAt)
  }

  // ---------------------------------------------------------------- leases over several targets

  lemma {:induction false} TargetForFinds(targets: seq<Target>, i: nat)
    requires DistinctTargets(targets) && i < |targets|
    ensures TargetFor(targets, targets[i].target) == Some(targets[i])
  {
    if i > 0 {
      assert targets[0].target != targets[i].target;
      TargetForFinds(targets[1..], i - 1);
    }
  }

  lemma {:induction false} TargetForIn(targets: seq<Target>, name: string)
    ensures TargetFor(targets, name).Some? ==>
      TargetFor(targets, name).value in targets && TargetFor(targets, name).value.target == name
  {
    if targets != [] && targets[0].target != name { TargetForIn(targets[1..], name); }
  }

  /** No commit or failure gives a lease back to a row that is not under it. */
  lemma {:induction false} CommitsKeepUnlocked(db: Db, targets: seq<Target>, call: Id, answers: seq<Answer>,
      mode: RunMode, ids: seq<seq<Id>>, now: Time, t: Target)
    requires |ids| == |answers| && (forall i | 0 <= i < |ids| :: |ids[i]| == |answers[i].labels|)
    ensures !Locked(db, t, now) ==> !Locked(CommitAll(db, targets, call, answers, mode, ids, now), t, now)
  {
    if answers != [] {
      var n := |answers| - 1;
      CommitsKeepUnlocked(db, targets, call, answers[..n], mode, ids[..n], now, t);
    }
  }

  lemma {:induction false} FailuresKeepUnlocked(db: Db, targets: seq<Target>, names: seq<string>,
      failures: seq<Failure>, retryAt: Time, now: Time, t: Target)
    requires |failures| == |names|
    ensures !Locked(db, t, now) ==> !Locked(FailEach(db, targets, names, failures, retryAt), t, now)
  {
    if names != [] {
      var n := |names| - 1;
      FailuresKeepUnlocked(db, targets, names[..n], failures[..n], retryAt, now, t);
    }
  }

  /** Rows of other targets keep the call they were started with. */
  lemma {:induction false} CommitsKeepCalls(db: Db, targets: seq<Target>, call: Id, answers: seq<Answer>,
      mode: RunMode, ids: seq<seq<Id>>, now: Time, t: Target)
    requires |ids| == |answers| && (forall i | 0 <= i < |ids| :: |ids[i]| == |answers[i].labels|)
    ensures var v := CommitAll(db, targets, call, answers, mode, ids, now);
      Locked(v, t, now) ==> Locked(db, t, now) && v.stages[t.stage] == db.stages[t.stage]
  {
    if answers != [] {
      var n := |answers| - 1;
      CommitsKeepCalls(db, targets, call, answers[..n], mode, ids[..n], now, t);
    }
  }

  /** A target with an answer is not left under its lease. */
  lemma {:induction false} AnswerEndsLease(db: Db, targets: seq<Target>, call: Id, answers: seq<Answer>, mode: RunMode,
      ids: seq<seq<Id>>, now: Time, i: nat, k: nat)
    requires |ids| == |answers| && (forall i | 0 <= i < |ids| :: |ids[i]| == |answers[i].labels|)
    requires DistinctTargets(targets) && i < |targets| && k < |answers| && answers[k].target == targets[i].target
    requires Locked(db, targets[i], now) ==> db.stages[targets[i].stage].call == Some(call)
    ensures !Locked(CommitAll(db, targets, call, answers, mode, ids, now), targets[i], now)
  {
    var n := |answers| - 1;
    TargetForFinds(targets, i);
    CommitsKeepCalls(db, targets, call, answers[..n], mode, ids[..n], now, targets[i]);
    if k < n { AnswerEndsLease(db, targets, call, answers[..n], mode, ids[..n], now, i, k); }
  }

  lemma {:induction false} FailureEndsLease(db: Db, targets: seq<Target>, names: seq<string>, failures: seq<Failure>,
      retryAt: Time, now: Time, i: nat, k: nat)
    requires |failures| == |names| && (forall n | 0 <= n < |failures| :: failures[n].at == now)
    requires DistinctTargets(targets) && i < |targets| && k < |names| && names[k] == targets[i].target
    ensures !Locked(FailEach(db, targets, names, failures, retryAt), targets[i], now)
  {
    var n := |names| - 1;
    TargetForFinds(targets, i);
    if k < n { FailureEndsLease(db, targets, names[..n], failures[..n], retryAt, now, i, k); }
  }

  /**
   * Once an answered call is committed and its unanswered targets are
   * failed, none of its rows is left under its lease.
   */
  lemma AnsweredLeavesNothingRunning(
      db: Db, targets: seq<Target>, call: Id, answers: seq<Answer>, mode: RunMode, ids: seq<seq<Id>>,
        names: seq<string>, failures: seq<Failure>,
      retryAt: Time, now: Time, i: nat)
    requires |ids| == |answers| && (forall i | 0 <= i < |ids| :: |ids[i]| == |answers[i].labels|)
    requires |failures| == |names| && (forall n | 0 <= n < |failures| :: failures[n].at == now)
    requires DistinctTargets(targets) && i < |targets|
    requires Locked(db, targets[i], now) ==> db.stages[targets[i].stage].call == Some(call)
    requires (exists k :: 0 <= k < |answers| && answers[k].target == targets[i].target) || targets[i].target in names
    ensures !Locked(FailEach(CommitAll(db, targets, call, answers, mode, ids, now), targets, names, failures,
      retryAt), targets[i], now)
  {
    var committed := CommitAll(db, targets, call, answers, mode, ids, now);
    if targets[i].target in names {
      var k :| 0 <= k < |names| && names[k] == targets[i].target;
      FailureEndsLease(committed, targets, names, failures, retryAt, now, i, k);
    } else {
      var k :| 0 <= k < |answers| && answers[k].target == targets[i].target;
      AnswerEndsLease(db, targets, call, answers, mode, ids, now, i, k);
      FailuresKeepUnlocked(committed, targets, names, failures, retryAt, now, targets[i]);
    }
  }

  // ---------------------------------------------------------------- each target as if it were alone

  /** The rows of other stage runs stay as they are. */
  lemma {:induction false} HitsLeave(db: Db, rules: Rules, targets: seq<Target>, reuse: Reuse, mode: RunMode,
      ids: seq<seq<Id>>, now: Time, id: Id)
    requires |ids| == |targets| && (forall i | 0 <= i < |ids| :: |ids[i]| == |reuse.labels|) && id in db.stages
    requires forall i | 0 <= i < |targets| :: targets[i].stage != id || !db.stages[id].status.StageRunning?
    ensures var v := HitAll(db, rules, targets, reuse, mode, ids, now);
      id in v.stages && v.stages[id] == db.stages[id]
  {
    if targets != [] {
      var n := |targets| - 1;
      HitsLeave(db, rules, targets[..n], reuse, mode, ids[..n], now, id);
    }
  }

  lemma {:induction false} HitsKeepKeys(db: Db, rules: Rules, targets: seq<Target>, reuse: Reuse, mode: RunMode,
      ids: seq<seq<Id>>, now: Time)
    requires |ids| == |targets| && (forall i | 0 <= i < |ids| :: |ids[i]| == |reuse.labels|)
    ensures var v := HitAll(db, rules, targets, reuse, mode, ids, now);
      v.stages.Keys == db.stages.Keys && (!ExactSource(db, reuse.source, reuse.tag) ==> v == db)
  {
    if targets != [] {
      var n := |targets| - 1;
      HitsKeepKeys(db, rules, targets[..n], reuse, mode, ids[..n], now);
    }
  }

  /** A cache commit of several targets gives each of their rows what a commit of that target alone would give it. */
  lemma {:induction false} HitsEach(db: Db, rules: Rules, targets: seq<Target>, reuse: Reuse, mode: RunMode,
      ids: seq<seq<Id>>, now: Time, i: nat)
    requires |ids| == |targets| && (forall i | 0 <= i < |ids| :: |ids[i]| == |reuse.labels|)
    requires DistinctTargets(targets) && i < |targets| && targets[i].stage in db.stages
    ensures var v, t := HitAll(db, rules, targets, reuse, mode, ids, now), targets[i];
      t.stage in v.stages && v.stages[t.stage]
        == AfterHit(db, rules, t, reuse.manifest, reuse.tag, reuse.source, reuse.parsed, mode, reuse.labels, ids[i],
             now).stages[t.stage]
  {
    var n := |targets| - 1;
    HitsKeepKeys(db, rules, targets[..n], reuse, mode, ids[..n], now);
    if i < n {
      HitsEach(db, rules, targets[..n], reuse, mode, ids[..n], now, i);
    } else if ExactSource(db, reuse.source, reuse.tag) {
      HitsLeave(db, rules, targets[..n], reuse, mode, ids[..n], now, targets[n].stage);
      HitsLeave(db, rules, targets[..n], reuse, mode, ids[..n], now, reuse.source);
    }
  }

  predicate Aimed(targets: seq<Target>, id: Id) { exists t :: t in targets && t.stage == id }

  /** Starting several targets starts each of them, and no other row. */
  lemma {:induction false} StartsEach(db: Db, targets: seq<Target>, manifest: Id, call: Id, tag: CacheTag, now: Time,
      id: Id)
    requires DistinctTargets(targets) && AllLocked(db, targets, now) && id in db.stages
    ensures var v := StartAll(db, targets, manifest, call, tag, now);
      && v.stages.Keys == db.stages.Keys && v.runs == db.runs && v.messages == db.messages
      && v.assignments == db.assignments
      && v.stages[id] == if Aimed(targets, id)
           then db.stages[id].(manifest := Some(manifest), call := Some(call), tag := tag) else db.stages[id]
  {
    if targets != [] {
      var n := |targets| - 1;
      StartsEach(db, targets[..n], manifest, call, tag, now, id);
      StartsEach(db, targets[..n], manifest, call, tag, now, targets[n].stage);
      assert targets == targets[..n] + [targets[n]];
      assert !Aimed(targets[..n], targets[n].stage);
    }
  }

  lemma {:induction false} CommitsLeave(db: Db, targets: seq<Target>, call: Id, answers: seq<Answer>, mode: RunMode,
      ids: seq<seq<Id>>, now: Time, t: Target)
    requires |ids| == |answers| && (forall i | 0 <= i < |ids| :: |ids[i]| == |answers[i].labels|)
    requires DistinctTargets(targets) && t in targets && t.stage in db.stages
    requires forall k | 0 <= k < |answers| :: answers[k].target != t.target
    ensures var v := CommitAll(db, targets, call, answers, mode, ids, now);
      t.stage in v.stages && v.stages[t.stage] == db.stages[t.stage]
  {
    if answers != [] {
      var n := |answers| - 1;
      CommitsLeave(db, targets, call, answers[..n], mode, ids[..n], now, t);
      TargetForIn(targets, answers[n].target);
    }
  }

  /** An answer among several, the only one for its target, is committed as it would be alone. */
  lemma {:induction false} CommitsEach(db: Db, targets: seq<Target>, call: Id, answers: seq<Answer>, mode: RunMode,
      ids: seq<seq<Id>>, now: Time, i: nat, k: nat)
    requires |ids| == |answers| && (forall i | 0 <= i < |ids| :: |ids[i]| == |answers[i].labels|)
    requires DistinctTargets(targets) && i < |targets| && targets[i].stage in db.stages
    requires k < |answers| && answers[k].target == targets[i].target
    requires forall j | 0 <= j < |answers| && j != k :: answers[j].target != answers[k].target
    ensures var v, t := CommitAll(db, targets, call, answers, mode, ids, now), targets[i];
      t.stage in v.stages
        && v.stages[t.stage] == AfterCommit(db, t, call, answers[k], mode, ids[k], now).stages[t.stage]
  {
    var n := |answers| - 1;
    if k < n {
      CommitsEach(db, targets, call, answers[..n], mode, ids[..n], now, i, k);
      TargetForIn(targets, answers[n].target);
    } else {
      CommitsLeave(db, targets, call, answers[..n], mode, ids[..n], now, targets[i]);
      TargetForFinds(targets, i);
    }
  }

  lemma {:induction false} FailuresLeave(db: Db, targets: seq<Target>, names: seq<string>, failures: seq<Failure>,
      retryAt: Time, t: Target)
    requires |failures| == |names| && DistinctTargets(targets) && t in targets && t.stage in db.stages
    requires t.target !in names
    ensures var v := FailEach(db, targets, names, failures, retryAt);
      t.stage in v.stages && v.stages[t.stage] == db.stages[t.stage]
  {
    if names != [] {
      var n := |names| - 1;
      FailuresLeave(db, targets, names[..n], failures[..n], retryAt, t);
      TargetForIn(targets, names[n]);
    }
  }

  /** A failure among several, the only one for its target, is recorded as it would be alone. */
  lemma {:induction false} FailsEach(db: Db, targets: seq<Target>, names: seq<string>, failures: seq<Failure>,
      retryAt: Time, i: nat, k: nat)
    requires |failures| == |names| && DistinctTargets(targets) && i < |targets| && targets[i].stage in db.stages
    requires k < |names| && names[k] == targets[i].target
    requires forall j | 0 <= j < |names| && j != k :: names[j] != names[k]
    ensures var v, t := FailEach(db, targets, names, failures, retryAt), targets[i];
      t.stage in v.stages && v.stages[t.stage] == AfterFailure(db, t, failures[k], retryAt).stages[t.stage]
  {
    var n := |names| - 1;
    if k < n {
      FailsEach(db, targets, names[..n], failures[..n], retryAt, i, k);
      TargetForIn(targets, names[n]);
    } else {
      assert targets[i].target !in names[..n];
      FailuresLeave(db, targets, names[..n], failures[..n], retryAt, targets[i]);
      TargetForFinds(targets, i);
    }
  }

  // ---------------------------------------------------------------- the repository

  datatype Claimed = Claimed(stage: Id, run: Id, message: Id, target: string, token: Token, attempts: int,
    maxAttempts: int, mode: RunMode)
  {
    function AsTarget(): Target { Target(stage, token, target) }
  }

  function ClaimOf(db: Db, id: Id, token: Token): Claimed
    requires id in db.stages && db.stages[id].run in db.runs
  {
    var s := db.stages[id];
    Claimed(id, s.run, s.message, s.target, token, s.attempts + 1, s.maxAttempts, db.runs[s.run].mode)
  }

  /** The gate items of assignments that are activated and negative. */
  function GatesOf(assignments: seq<Assignment>): seq<GateItem> {
    if assignments == [] then []
    else
      var last := assignments[|assignments| - 1];
      GatesOf(assignments[..|assignments| - 1]) + if last.Gates() then [GateItem(last.message, last.stage, last.id)]
        else []
  }

  lemma {:induction false} GatesConcat(a: seq<Assignment>, b: seq<Assignment>)
    ensures GatesOf(a + b) == GatesOf(a) + GatesOf(b)
  {
    if b == [] {
      assert a + b == a;
    } else {
      assert (a + b)[..|a + b| - 1] == a + b[..|b| - 1];
      GatesConcat(a, b[..|b| - 1]);
    }
  }

  /** A candidate for reuse by another stage run. */
  predicate Candidate(db: Db, id: Id, tag: CacheTag, source: Id) { source != id && ExactSource(db, source, tag) }

  /**
   * The order in which candidates are preferred: completed last, then by
   * ID; a missing time sorts first, as NULL does.
   */
  predicate Preferred(stages: map<Id, StageRun>, a: Id, b: Id)
    requires a in stages && b in stages
  {
    match (stages[a].completedAt, stages[b].completedAt)
    case (None, None) => a > b
    case (None, Some(_)) => true
    case (Some(_), None) => false
    case (Some(x), Some(y)) => x > y || (x == y && a > b)
  }

  class Repository {
    var runs: map<Id, AnalysisRun>
    var stages: map<Id, StageRun>
    var messages: map<Id, Message>
    var assignments: seq<Assignment>

    ghost function State(): Db
      reads this
    {
      Db(runs, stages, messages, assignments)
    }

    method Claim(id: Id, token: Token, now: Time, lease: int) returns (claim: Option<Claimed>)
      modifies this`stages, this`runs
      ensures State() == AfterClaim(old(State()), id, token, now, now + lease)
      ensures claim.Some? <==> old(Claims(State(), id, now))
      ensures claim.Some? ==> claim.value == old(ClaimOf(State(), id, token))
      ensures claim.Some? ==>
        id in stages && old(stages[id].run in runs) && claim.value == Claimed(
          id, stages[id].run, stages[id].message, stages[id].target, token, stages[id].attempts,
          stages[id].maxAttempts, old(runs[stages[id].run].mode))
    {
      if id !in stages || !Due(stages[id], now) { return None; }
      var row := stages[id];
      if row.run !in runs || runs[row.run].Terminal() { return None; }
      var run := runs[row.run];
      if row.attempts >= row.maxAttempts {
        TerminalizeExhausted(id, now);
        return None;
      }
      row := row.(status := StageRunning, attempts := row.attempts + 1, nextRetry := None, token := Some(token),
                  expires := Some(now + lease));
      if row.startedAt.None? { row := row.(startedAt := Some(now)); }
      stages := stages[id := row];
      runs := runs[row.run :=
        run.(status := RunRunning, startedAt := StartedBy(run.startedAt, now), completedAt := None)];
      claim := Some(Claimed(id, row.run, row.message, row.target, token, row.attempts, row.maxAttempts, run.mode));
    }

    method TerminalizeExhausted(id: Id, now: Time)
      requires id in stages && stages[id].run in runs
      modifies this`stages, this`runs
      ensures State() == AfterExhaustion(old(State()), id, now)
    {
      var row := stages[id];
      stages := stages[id := GivenUp(row, Failure("LEASE_EXPIRED", "WorkerLeaseExpired", false, now))];
      var run := runs[row.run].(startedAt := StartedBy(runs[row.run].startedAt, now));
      if exists x :: x in stages && stages[x].run == row.run && stages[x].Active() {
        run := run.(status := RunRunning, completedAt := None);
      } else {
        run := run.(status := RunFailed, completedAt := Some(now));
      }
      runs := runs[row.run := run];
    }

    /** `load_stage_snapshot` as far as targets go: the claimed row, while it still carries the token. */
    method LoadStageSnapshot(claim: Claimed) returns (targets: Option<seq<Target>>)
      ensures targets == if claim.stage in stages && stages[claim.stage].status.StageRunning?
        && stages[claim.stage].token == Some(claim.token)
        then Some([Target(claim.stage, claim.token, stages[claim.stage].target)]) else None
    {
      if claim.stage !in stages || !stages[claim.stage].status.StageRunning?
        || stages[claim.stage].token != Some(claim.token) {
        return None;
      }
      targets := Some([Target(claim.stage, claim.token, stages[claim.stage].target)]);
    }

    method FindCacheHit(id: Id, tag: CacheTag, rules: Rules) returns (hit: Option<(Id, Json)>)
      ensures hit.Some? ==>
        Candidate(State(), id, tag, hit.value.0) && hit.value.1 == Sanitize(rules, stages[hit.value.0].result.value)
      ensures hit.Some? ==>
        forall x | Candidate(State(), id, tag, x) && x != hit.value.0 ::
          && Preferred(stages, hit.value.0, x)
          && var a, b := stages[hit.value.0].completedAt, stages[x].completedAt;
          (a.None? || (b.Some? && a.value >= b.value)) && (a == b ==> hit.value.0 > x)
      ensures (forall x | x in stages && stages[x].result.Some? :: stages[x].result.value.Obj?) ==>
        (hit.None? <==> forall x :: !Candidate(State(), id, tag, x))
    {
      var left, best := stages.Keys, None;
      while left != {}
        invariant left <= stages.Keys
        invariant best.None? ==> forall x | x in stages && x !in left :: !Candidate(State(), id, tag, x)
        invariant best.Some? ==> best.value in stages && Candidate(State(), id, tag, best.value)
        invariant best.Some? ==>
          forall x | x in stages && x !in left && x != best.value && Candidate(State(), id, tag, x) ::
            Preferred(stages, best.value, x)
        decreases |left|
      {
        var x :| x in left;
        left := left - {x};
        var s := stages[x];
        if x != id && s.status.StageSucceeded? && s.tag == tag && tag.key.Some? && s.result.Some? {
          if best.None? || Preferred(stages, x, best.value) { best := Some(x); }
        }
      }
      if best.None? { return None; }
      var parsed := Sanitize(rules, stages[best.value].result.value);
      if !parsed.Obj? { return None; }
      hit := Some((best.value, parsed));
    }

    method CommitCacheHit(rules: Rules, targets: seq<Target>, reuse: Reuse, mode: RunMode, ids: seq<seq<Id>>,
        now: Time) returns (gates: seq<GateItem>)
      requires |ids| == |targets| && forall i | 0 <= i < |ids| :: |ids[i]| == |reuse.labels|
      modifies this`stages, this`assignments
      ensures State() == HitAll(old(State()), rules, targets, reuse, mode, ids, now)
      ensures |old(assignments)| <= |assignments| && gates == GatesOf(assignments[|old(assignments)|..])
    {
      ghost var before := |assignments|;
      gates := [];
      for n := 0 to |targets|
        invariant State() == HitAll(old(State()), rules, targets[..n], reuse, mode, ids[..n], now)
        invariant before <= |assignments| && gates == GatesOf(assignments[before..])
      {
        assert targets[..n + 1][..n] == targets[..n] && ids[..n + 1][..n] == ids[..n];
        var made := CommitHitRow(rules, targets[n], reuse, mode, ids[n], now);
        gates := gates + made;
      }
      assert targets[..|targets|] == targets && ids[..|ids|] == ids;
    }

    method CommitHitRow(rules: Rules, t: Target, reuse: Reuse, mode: RunMode, ids: seq<Id>, now: Time)
        returns (gates: seq<GateItem>)
      requires |ids| == |reuse.labels|
      modifies this`stages, this`assignments
      ensures State() ==
        AfterHit(old(State()), rules, t, reuse.manifest, reuse.tag, reuse.source, reuse.parsed, mode,
                 reuse.labels, ids, now)
      ensures |old(assignments)| <= |assignments|
      ensures forall n | 0 <= n <= |old(assignments)| ::
        GatesOf(assignments[n..]) == GatesOf(old(assignments)[n..]) + gates
    {
      var exact := reuse.tag.key.Some? && reuse.source in stages && stages[reuse.source].status.StageSucceeded?
        && stages[reuse.source].result.Some? && stages[reuse.source].tag == reuse.tag;
      var locked := LockTarget(t, now);
      if !exact || !locked { return []; }
      var row := stages[t.stage];
      var source := stages[reuse.source].result.value;
      var result := Rewrite(rules, if source == Obj(map[]) then reuse.parsed else source, t.target);
      stages := stages[t.stage :=
        Cleared(row, now).(manifest := Some(reuse.manifest), call := None, result := Some(result), tag := reuse.tag,
                           origin := Some(Cache), reusedFrom := Some(reuse.source))];
      gates := Assign(reuse.labels, ids, t.stage, row, mode);
    }

    /** Adds the assignments of one row, unless the run is a test. */
    method Assign(labels: seq<Label>, ids: seq<Id>, stage: Id, row: StageRun, mode: RunMode)
        returns (gates: seq<GateItem>)
      requires |ids| == |labels|
      modifies this`assignments
      ensures assignments == old(assignments) + if mode.Test? then [] else NewAssignments(labels, ids, stage, row)
      ensures forall n | 0 <= n <= |old(assignments)| ::
        GatesOf(assignments[n..]) == GatesOf(old(assignments)[n..]) + gates
    {
      gates := [];
      ghost var before := assignments;
      var made: seq<Assignment> := [];
      if !mode.Test? {
        for i := 0 to |labels|
          invariant made == NewAssignments(labels, ids, stage, row)[..i]
          invariant gates == GatesOf(made)
        {
          var assignment := Assignment(ids[i], stage, row.run, row.message, labels[i]);
          assert (made + [assignment])[..|made|] == made;
          made := made + [assignment];
          if assignment.verdict.activated && assignment.verdict.negative {
            gates := gates + [GateItem(row.message, stage, assignment.id)];
          }
        }
      }
      assignments := assignments + made;
      forall n | 0 <= n <= |before| ensures GatesOf(assignments[n..]) == GatesOf(before[n..]) + gates {
        assert assignments[n..] == before[n..] + made;
        GatesConcat(before[n..], made);
      }
    }

    method LockTarget(t: Target, now: Time) returns (locked: bool)
      ensures locked <==> Locked(State(), t, now)
    {
      if t.stage !in stages { return false; }
      var row := stages[t.stage];
      locked := row.status.StageRunning? && row.expires.Some? && row.expires.value > now
        && row.token == Some(t.token) && row.target == t.target;
    }

    /** All rows or none: a call is started only while every target is still leased. */
    method StartInference(targets: seq<Target>, manifest: Id, call: Id, tag: CacheTag, now: Time)
        returns (started: bool)
      requires DistinctTargets(targets)
      modifies this`stages
      ensures started <==> old(AllLocked(State(), targets, now))
      ensures State() == if started then StartAll(old(State()), targets, manifest, call, tag, now) else old(State())
    {
      for n := 0 to |targets|
        invariant stages == old(stages)
        invariant forall i | 0 <= i < n :: Locked(State(), targets[i], now)
      {
        var locked := LockTarget(targets[n], now);
        if !locked { return false; }
      }
      for n := 0 to |targets|
        invariant State() == StartAll(old(State()), targets[..n], manifest, call, tag, now)
        invariant forall i | n <= i < |targets| :: Locked(State(), targets[i], now)
      {
        assert targets[..n + 1][..n] == targets[..n];
        var id := targets[n].stage;
        stages := stages[id := stages[id].(manifest := Some(manifest), call := Some(call), tag := tag)];
      }
      assert targets[..|targets|] == targets;
      started := true;
    }

    method CommitValidatedTargets(targets: seq<Target>, call: Id, answers: seq<Answer>, mode: RunMode,
        ids: seq<seq<Id>>, now: Time)
        returns (gates: seq<GateItem>)
      requires |ids| == |answers| && forall i | 0 <= i < |ids| :: |ids[i]| == |answers[i].labels|
      modifies this`stages, this`assignments
      ensures State() == CommitAll(old(State()), targets, call, answers, mode, ids, now)
      ensures |old(assignments)| <= |assignments| && gates == GatesOf(assignments[|old(assignments)|..])
    {
      ghost var before := |assignments|;
      gates := [];
      for n := 0 to |answers|
        invariant State() == CommitAll(old(State()), targets, call, answers[..n], mode, ids[..n], now)
        invariant before <= |assignments| && gates == GatesOf(assignments[before..])
      {
        assert answers[..n + 1][..n] == answers[..n] && ids[..n + 1][..n] == ids[..n];
        var t := TargetFor(targets, answers[n].target);
        if t.Some? {
          var made := CommitRow(t.value, call, answers[n], mode, ids[n], now);
          gates := gates + made;
        }
      }
      assert answers[..|answers|] == answers && ids[..|ids|] == ids;
    }

    method CommitRow(t: Target, call: Id, answer: Answer, mode: RunMode, ids: seq<Id>, now: Time)
        returns (gates: seq<GateItem>)
      requires |ids| == |answer.labels|
      modifies this`stages, this`assignments
      ensures State() == AfterCommit(old(State()), t, call, answer, mode, ids, now)
      ensures |old(assignments)| <= |assignments|
      ensures forall n | 0 <= n <= |old(assignments)| ::
        GatesOf(assignments[n..]) == GatesOf(old(assignments)[n..]) + gates
    {
      var locked := LockTarget(t, now);
      if !locked || stages[t.stage].call != Some(call) { return []; }
      var row := stages[t.stage];
      stages := stages[t.stage :=
        Cleared(row, now).(result := Some(answer.document), origin := Some(Inference), reusedFrom := None)];
      gates := Assign(answer.labels, ids, t.stage, row, mode);
    }

    /** `retry_or_fail_targets` for one target after the other, each with its own failure. */
    method RetryOrFailTargets(targets: seq<Target>, names: seq<string>, failures: seq<Failure>, retryAt: Time)
      requires |failures| == |names|
      modifies this`stages
      ensures State() == FailEach(old(State()), targets, names, failures, retryAt)
    {
      for n := 0 to |names|
        invariant State() == FailEach(old(State()), targets, names[..n], failures[..n], retryAt)
      {
        assert names[..n + 1][..n] == names[..n] && failures[..n + 1][..n] == failures[..n];
        var t := TargetFor(targets, names[n]);
        if t.Some? { RetryOrFailRow(t.value, failures[n], retryAt); }
      }
      assert names[..|names|] == names && failures[..|failures|] == failures;
    }

    method RetryOrFailRow(t: Target, failure: Failure, retryAt: Time)
      modifies this`stages
      ensures State() == AfterFailure(old(State()), t, failure, retryAt)
    {
      var locked := LockTarget(t, failure.at);
      if !locked { return; }
      var row := stages[t.stage].(failure := Some(failure), token := None, expires := None);
      if failure.retryable && row.attempts < row.maxAttempts {
        stages := stages[t.stage := row.(status := StageRetryWait, nextRetry := Some(retryAt), completedAt := None)];
      } else {
        stages := stages[t.stage := row.(status := StageFailed, nextRetry := None, completedAt := Some(failure.at))];
      }
    }

    method ApplyNegativeGate(run: Id, items: seq<GateItem>, now: Time) returns (applied: bool)
      modifies this`stages, this`runs, this`messages
      ensures applied <==> old(GateApplies(State(), run, items))
      ensures State() == AfterGate(old(State()), run, items, now)
    {
      if items == [] || run !in runs || runs[run].mode.Test? { return false; }
      for n := 0 to |items|
        invariant forall i | 0 <= i < n :: ItemHolds(State(), run, items[i]) && items[i].message in messages
      {
        var found := FindAssignment(assignments, items[n].assignment);
        if found.None? || found.value.run != run || !found.value.Gates() || found.value.message != items[n].message
           || found.value.stage != items[n].stage || items[n].message !in messages
        {
          return false;
        }
      }
      messages := Blocked(messages, items, now);
      stages := map s | s in stages ::
        if stages[s].run == run && Cause(items, stages[s].message).Some? && stages[s].Active()
          then Skip(stages[s], now) else stages[s];
      runs := runs[run :=
        runs[run].(status := RunBlocked, startedAt := StartedBy(runs[run].startedAt, now), completedAt := Some(now))];
      applied := true;
    }

    method CompleteAnalysisRun(run: Id, now: Time) returns (known: bool)
      modifies this`runs
      ensures known <==> run in old(runs)
      ensures State() == AfterRollUp(old(State()), run, now)
    {
      if run !in runs { return false; }
      var statuses := set x | x in stages && stages[x].run == run :: stages[x].status;
      var row := runs[run].(startedAt := StartedBy(runs[run].startedAt, now));
      if StagePending in statuses || StageRunning in statuses || StageRetryWait in statuses {
        row := row.(status := RunRunning, completedAt := None);
      } else if StageFailed in statuses {
        row := row.(status := RunFailed, completedAt := Some(now));
      } else if row.status.RunBlocked? || StageSkippedGate in statuses {
        row := row.(status := RunBlocked, completedAt := StartedBy(row.completedAt, now));
      } else {
        row := row.(status := RunCompleted, completedAt := Some(now));
      }
      runs := runs[run := row];
      known := true;
    }
  }
}
