/** One pass of the stage run worker: claim, reuse or call, commit or fail, gate and roll up. */
module StageWorker {
  import opened Json
  import V = Validator
  import opened Sanitizer
  import opened StageStore
  import opened StageProtocol
  import opened StageRepository
  import StageProgress

  /** What loading and preparing the call comes to: an error to fail the claim with, or what the call is made from. */
  datatype Preparation =
    | Unprepared(code: string, kind: string, retryable: bool)
    | Prepared(cached: bool, tag: CacheTag, manifest: Id, call: Id)

  /** What the provider answers. */
  datatype Invocation = ProviderFailed(code: string, kind: string, retryable: bool) | Replied(payload: Json)

  /** The parts of a stage version the worker uses. */
  datatype StageVersion = StageVersion(mode: V.ExecutionMode, policy: V.Policy, labels: V.LabelSet, baseDelay: nat,
    maxDelay: nat)

  function Power(n: nat): nat { if n == 0 then 1 else 2 * Power(n - 1) }

  function Least(a: int, b: int): int { if a <= b then a else b }

  /** `_retry_at` and the delay of `_fail_claim`: doubling with each attempt, up to a ceiling. */
  function RetryAt(base: nat, ceiling: nat, attempts: int, now: Time): (at: Time)
    ensures now <= at <= now + ceiling
  {
    now + Least(ceiling, base * Power(if attempts > 1 then attempts - 1 else 0))
  }

  lemma {:induction false} RetriesNeverComeSooner(base: nat, ceiling: nat, attempts: int, later: int, now: Time)
    requires attempts <= later
    ensures RetryAt(base, ceiling, attempts, now) <= RetryAt(base, ceiling, later, now)
    decreases later - attempts
  {
    if attempts < later {
      RetriesNeverComeSooner(base, ceiling, attempts + 1, later, now);
      if attempts >= 1 {
        assert base * Power(attempts) == base * (2 * Power(attempts - 1)) == 2 * (base * Power(attempts - 1));
      }
    }
  }

  /** The first delay is the base, each further one twice the one before, none beyond the ceiling. */
  lemma DelaysDouble(base: nat, ceiling: nat, attempts: int, now: Time)
    ensures attempts <= 1 ==> RetryAt(base, ceiling, attempts, now) == now + if base <= ceiling then base else ceiling
    ensures attempts >= 1 ==>
      var delay := RetryAt(base, ceiling, attempts, now) - now;
      RetryAt(base, ceiling, attempts + 1, now) == now + if 2 * delay <= ceiling then 2 * delay else ceiling
  {
    if attempts >= 1 {
      assert base * Power(attempts) == base * (2 * Power(attempts - 1)) == 2 * (base * Power(attempts - 1));
    }
  }

  // ---------------------------------------------------------------- validated results as they are stored

  function LabelsOf(result: V.TargetResult): (labels: seq<Label>)
    ensures |labels| == |result.labels|
  {
    seq(|result.labels|, i requires 0 <= i < |result.labels| =>
      Label(result.labels[i].key, result.labels[i].score, result.labels[i].activated, result.labels[i].negative))
  }

  function LabelDocument(r: V.ResolvedLabel): Json {
    Obj(map["label_definition_version_id" := Str(r.versionId), "key" := Str(r.key), "scope" := Str(r.scope),
            "score" := Float(r.score), "activated" := Bool(r.activated), "negative" := Bool(r.negative)])
  }

  /** `_validated_result_document` */
  function DocumentOf(result: V.TargetResult): Json {
    Obj(map[
      "target_id" := Str(result.target),
      "labels" := Arr(seq(|result.labels|, i requires 0 <= i < |result.labels| => LabelDocument(result.labels[i]))),
      "reason" := (match result.reason case Some(s) => Str(s) case None => Null),
      "evidence" := Arr(seq(|result.evidence|, i requires 0 <= i < |result.evidence| => Str(result.evidence[i])))])
  }

  function AnswersOf(results: seq<V.TargetResult>): (answers: seq<Answer>)
    ensures |answers| == |results|
  {
    seq(|results|, i requires 0 <= i < |results| =>
      Answer(results[i].target, DocumentOf(results[i]), LabelsOf(results[i])))
  }

  function CodeName(code: V.IssueCode): string {
    match code
    case InvalidStructuredOutput => "INVALID_STRUCTURED_OUTPUT"
    case MissingTargetResult => "MISSING_TARGET_RESULT"
  }

  function ErrorName(e: V.ErrorType): string {
    match e
    case ResponseNotObject => "response_not_object"
    case BatchEnvelopeInvalid => "batch_envelope_invalid"
    case SingleEnvelopeInvalid => "single_envelope_invalid"
    case BatchResultNotObject => "batch_result_not_object"
    case TargetIdInvalid => "target_id_invalid"
    case UnknownTargetResult => "unknown_target_result"
    case DuplicateTargetResult => "duplicate_target_result"
    case MissingTarget => "missing_target_result"
    case ResultFieldsInvalid => "result_fields_invalid"
    case DenseScoresIncompleteOrUnknown => "dense_scores_incomplete_or_unknown"
    case SparseMatchesNotArray => "sparse_matches_not_array"
    case SparseMatchInvalid => "sparse_match_invalid"
    case SparseMatchUnknownLabel => "sparse_match_unknown_label"
    case SparseMatchDuplicateLabel => "sparse_match_duplicate_label"
    case LabelScoreInvalid => "label_score_invalid"
    case ReasonInvalid => "reason_invalid"
    case EvidenceInvalid => "evidence_invalid"
  }

  function FirstFor(issues: seq<V.Issue>, target: Option<string>, otherwise: V.Issue): V.Issue {
    if issues == [] then otherwise else if issues[0].target == target then issues[0]
      else FirstFor(issues[1..], target, otherwise)
  }

  /** The issue a retry target fails with: its own, else one without a target, else the first. */
  function IssueFor(issues: seq<V.Issue>, target: string): V.Issue
    requires issues != []
  {
    FirstFor(issues, Some(target), FirstFor(issues, None, issues[0]))
  }

  lemma {:induction false} FirstForFinds(issues: seq<V.Issue>, target: Option<string>, otherwise: V.Issue)
    ensures if exists i :: 0 <= i < |issues| && issues[i].target == target
      then FirstFor(issues, target, otherwise) in issues && FirstFor(issues, target, otherwise).target == target
      else FirstFor(issues, target, otherwise) == otherwise
  {
    if issues != [] && issues[0].target != target { FirstForFinds(issues[1..], target, otherwise); }
  }

  /** For every payload the retry target's issue is its own or the one that concerns the payload as a whole. */
  lemma RetryIssueIsItsOwn(v: V.Validation, payload: Json, req: V.Request, target: string)
    requires V.Outcome(v, payload, req) && V.ExpectedOk(req.expected) && target in v.retry
    ensures v.issues != [] && IssueFor(v.issues, target) in v.issues
    ensures IssueFor(v.issues, target).target == if V.Enveloped(payload, req) then Some(target) else None
  {
    V.RetriesAreExplained(v, payload, req, target);
    FirstForFinds(v.issues, None, v.issues[0]);
    FirstForFinds(v.issues, Some(target), FirstFor(v.issues, None, v.issues[0]));
  }

  lemma HandledBySplit(v: V.Validation, expected: seq<string>, answered: set<string>, target: string)
    requires V.SplitsBy(v, expected, answered) && target in expected
    ensures target in v.retry || exists k :: 0 <= k < |v.valid| && v.valid[k].target == target
  {
    V.AmongAll(expected, answered);
    V.AmongAll(expected, (set t | t in expected) - answered);
    if target !in v.retry {
      assert target in V.TargetsOf(v.valid);
      var k :| 0 <= k < |v.valid| && V.TargetsOf(v.valid)[k] == target;
      assert v.valid[k].target == target;
    }
  }

  /** Every expected target has a result or is to be retried. */
  lemma EachTargetHandled(v: V.Validation, payload: Json, req: V.Request, target: string)
    requires V.Outcome(v, payload, req) && target in req.expected
    ensures target in v.retry || exists k :: 0 <= k < |v.valid| && v.valid[k].target == target
  {
    var answered := V.ResultsAndRetriesPartition(v, payload, req);
    HandledBySplit(v, req.expected, answered, target);
  }

  /** The target has a result or is to be retried. */
  predicate Handled(v: V.Validation, target: string) {
    target in v.retry || exists k :: 0 <= k < |v.valid| && v.valid[k].target == target
  }

  lemma HandledSettles(
      db: Db, targets: seq<Target>, call: Id, v: V.Validation, mode: RunMode, ids: seq<seq<Id>>,
        failures: seq<Failure>, retryAt: Time, now: Time, i: nat)
    requires DistinctTargets(targets) && i < |targets| && Handled(v, targets[i].target)
    requires |ids| == |v.valid| && (forall k | 0 <= k < |ids| :: |ids[k]| == |v.valid[k].labels|)
    requires |failures| == |v.retry| && (forall n | 0 <= n < |failures| :: failures[n].at == now)
    requires Locked(db, targets[i], now) ==> db.stages[targets[i].stage].call == Some(call)
    ensures !Locked(FailEach(CommitAll(db, targets, call, AnswersOf(v.valid), mode, ids, now), targets, v.retry,
      failures, retryAt), targets[i], now)
  {
    var answers := AnswersOf(v.valid);
    if k :| 0 <= k < |v.valid| && v.valid[k].target == targets[i].target {
      assert answers[k].target == targets[i].target;
    }
    AnsweredLeavesNothingRunning(db, targets, call, answers, mode, ids, v.retry, failures, retryAt, now, i);
  }

  /** Each expected target of an answered call is committed or failed, so none is left under its lease. */
  lemma AnsweredCallSettles(
      db: Db, targets: seq<Target>, call: Id, v: V.Validation, payload: Json, req: V.Request, mode: RunMode,
        ids: seq<seq<Id>>,
      failures: seq<Failure>, retryAt: Time, now: Time, i: nat)
    requires V.Outcome(v, payload, req)
    requires DistinctTargets(targets) && i < |targets| && targets[i].target in req.expected
    requires |ids| == |v.valid| && (forall k | 0 <= k < |ids| :: |ids[k]| == |v.valid[k].labels|)
    requires |failures| == |v.retry| && (forall n | 0 <= n < |failures| :: failures[n].at == now)
    requires Locked(db, targets[i], now) ==> db.stages[targets[i].stage].call == Some(call)
    ensures !Locked(FailEach(CommitAll(db, targets, call, AnswersOf(v.valid), mode, ids, now), targets, v.retry,
      failures, retryAt), targets[i], now)
  {
    EachTargetHandled(v, payload, req, targets[i].target);
    HandledSettles(db, targets, call, v, mode, ids, failures, retryAt, now, i);
  }

  // -------------------------------------------------------- transactions over several targets keep the invariant

  lemma {:induction false} HitAllKeeps(db: Db, rules: Rules, targets: seq<Target>, reuse: Reuse, mode: RunMode,
      ids: seq<seq<Id>>, now: Time)
    requires DbInv(db) && |ids| == |targets| && forall i | 0 <= i < |ids| :: |ids[i]| == |reuse.labels|
    ensures DbInv(HitAll(db, rules, targets, reuse, mode, ids, now))
  {
    if targets != [] {
      var n := |targets| - 1;
      HitAllKeeps(db, rules, targets[..n], reuse, mode, ids[..n], now);
      var before := HitAll(db, rules, targets[..n], reuse, mode, ids[..n], now);
      if Hits(before, targets[n], reuse.tag, reuse.source, now) {
        HitIsRowStep(before, rules, targets[n], reuse.manifest, reuse.tag, reuse.source, reuse.parsed, mode,
          reuse.labels, ids[n], now);
        RowKeeps(before, HitAll(db, rules, targets, reuse, mode, ids, now), targets[n].stage);
      }
    }
  }

  lemma {:induction false} StartAllKeeps(db: Db, targets: seq<Target>, manifest: Id, call: Id, tag: CacheTag, now: Time)
    requires DbInv(db)
    ensures DbInv(StartAll(db, targets, manifest, call, tag, now))
  {
    if targets != [] {
      var n := |targets| - 1;
      StartAllKeeps(db, targets[..n], manifest, call, tag, now);
      var before := StartAll(db, targets[..n], manifest, call, tag, now);
      if Locked(before, targets[n], now) {
        StartIsRowStep(before, targets[n], manifest, call, tag, now);
        RowKeeps(before, StartAll(db, targets, manifest, call, tag, now), targets[n].stage);
      }
    }
  }

  lemma {:induction false} CommitAllKeeps(db: Db, targets: seq<Target>, call: Id, answers: seq<Answer>, mode: RunMode,
      ids: seq<seq<Id>>, now: Time)
    requires DbInv(db) && |ids| == |answers| && forall i | 0 <= i < |ids| :: |ids[i]| == |answers[i].labels|
    requires forall i | 0 <= i < |answers| :: answers[i].document.Obj?
    ensures DbInv(CommitAll(db, targets, call, answers, mode, ids, now))
  {
    if answers != [] {
      var n := |answers| - 1;
      CommitAllKeeps(db, targets, call, answers[..n], mode, ids[..n], now);
      var before, t := CommitAll(db, targets, call, answers[..n], mode, ids[..n], now),
        TargetFor(targets, answers[n].target);
      if t.Some? && Commits(before, t.value, call, now) {
        CommitIsRowStep(before, t.value, call, answers[n], mode, ids[n], now);
        RowKeeps(before, CommitAll(db, targets, call, answers, mode, ids, now), t.value.stage);
      }
    }
  }

  lemma {:induction false} FailEachKeeps(db: Db, targets: seq<Target>, names: seq<string>, failures: seq<Failure>,
      retryAt: Time)
    requires DbInv(db) && |failures| == |names|
    ensures DbInv(FailEach(db, targets, names, failures, retryAt))
  {
    if names != [] {
      var n := |names| - 1;
      FailEachKeeps(db, targets, names[..n], failures[..n], retryAt);
      var before, t := FailEach(db, targets, names[..n], failures[..n], retryAt), TargetFor(targets, names[n]);
      if t.Some? && Locked(before, t.value, failures[n].at) {
        FailureIsRowStep(before, t.value, failures[n], retryAt);
        RowKeeps(before, FailEach(db, targets, names, failures, retryAt), t.value.stage);
      }
    }
  }

  // ---------------------------------------------------------------- what becomes of the claimed row

  /** Put off while the failure is retryable and attempts are left, otherwise failed for good. */
  predicate FailedAs(s: StageRun, t: StageRun, failure: Failure, retryAt: Time) {
    && t.failure == Some(failure) && t.token.None? && t.expires.None?
    && (if failure.retryable && s.attempts < s.maxAttempts
        then t.status.StageRetryWait? && t.nextRetry == Some(retryAt) && t.completedAt.None?
        else t.status.StageFailed? && t.nextRetry.None? && t.completedAt == Some(failure.at))
    && t == s.(status := t.status, nextRetry := t.nextRetry, token := None, expires := None, failure := t.failure,
               completedAt := t.completedAt)
  }

  /** Succeeded with this result, from the provider or from the cache. */
  predicate SucceededAs(s: StageRun, t: StageRun, document: Json, origin: Origin, source: Option<Id>, now: Time) {
    && t.status.StageSucceeded? && t.result == Some(document) && t.origin == Some(origin) && t.reusedFrom == source
    && t.completedAt == Some(now) && t.nextRetry.None? && t.token.None? && t.expires.None? && t.failure.None?
    && t == s.(status := t.status, result := t.result, origin := t.origin, reusedFrom := t.reusedFrom,
               completedAt := t.completedAt, nextRetry := None, token := None, expires := None, failure := None)
  }

  /** One new assignment for each label, of the claimed row, its run and its message; none in a test run. */
  predicate Assigns(db: Db, v: Db, claim: Claimed, labels: seq<Label>)
    requires claim.stage in db.stages
  {
    && |v.assignments| == |db.assignments| + (if claim.mode.Test? then 0 else |labels|)
    && v.assignments[..|db.assignments|] == db.assignments
    && forall i | |db.assignments| <= i < |v.assignments| ::
         && v.assignments[i].stage == claim.stage && v.assignments[i].run == db.stages[claim.stage].run
         && v.assignments[i].message == db.stages[claim.stage].message
         && v.assignments[i].verdict == labels[i - |db.assignments|]
  }

  predicate DocumentsLabel(r: V.ResolvedLabel, j: Json) {
    && j.Obj? && j.fields.Keys == {"label_definition_version_id", "key", "scope", "score", "activated", "negative"}
    && j.fields["label_definition_version_id"] == Str(r.versionId) && j.fields["key"] == Str(r.key)
    && j.fields["scope"] == Str(r.scope) && j.fields["score"] == Float(r.score)
    && j.fields["activated"] == Bool(r.activated) && j.fields["negative"] == Bool(r.negative)
  }

  /** The stored document says what the validated result says. */
  predicate Documents(result: V.TargetResult, document: Json) {
    && document.Obj? && document.fields.Keys == {"target_id", "labels", "reason", "evidence"}
    && document.fields["target_id"] == Str(result.target)
    && (match result.reason
        case Some(reason) => document.fields["reason"] == Str(reason)
        case None => document.fields["reason"] == Null)
    && document.fields["labels"].Arr? && document.fields["evidence"].Arr?
    && var labels, evidence := document.fields["labels"].items, document.fields["evidence"].items;
    && |labels| == |result.labels| && |evidence| == |result.evidence|
    && (forall i | 0 <= i < |labels| :: DocumentsLabel(result.labels[i], labels[i]))
    && (forall i | 0 <= i < |evidence| :: evidence[i] == Str(result.evidence[i]))
  }

  /** The labels assigned for a result: its own, with their scores and signs. */
  predicate Labels(result: V.TargetResult, labels: seq<Label>) {
    && |labels| == |result.labels|
    && forall i | 0 <= i < |labels| ::
         && labels[i].key == result.labels[i].key && labels[i].score == result.labels[i].score
         && labels[i].activated == result.labels[i].activated && labels[i].negative == result.labels[i].negative
  }

  lemma ResultIsStored(result: V.TargetResult)
    ensures Documents(result, DocumentOf(result)) && Labels(result, LabelsOf(result))
  {
  }

  /** The claimed row has failed or is put off, and nothing is assigned. */
  predicate FailedRow(db: Db, v: Db, claim: Claimed, s: StageRun, failure: Failure, retryAt: Time) {
    && claim.stage in v.stages && FailedAs(s, v.stages[claim.stage], failure, retryAt)
    && v.assignments == db.assignments
  }

  /** The claimed row has succeeded with the provider's result, and its labels are assigned. */
  ghost predicate AnsweredRow(db: Db, v: Db, claim: Claimed, s: StageRun, result: V.TargetResult, now: Time)
    requires claim.stage in db.stages
  {
    exists document, labels ::
      && Documents(result, document) && Labels(result, labels) && claim.stage in v.stages
      && SucceededAs(s, v.stages[claim.stage], document, Inference, None, now) && Assigns(db, v, claim, labels)
  }

  /** The claimed row has succeeded with the source's result, and the source's labels are assigned. */
  predicate ReusedRow(db: Db, v: Db, claim: Claimed, rules: Rules, manifest: Id, tag: CacheTag, source: Id, now: Time)
    requires claim.stage in db.stages && source in db.stages && db.stages[source].result.Some?
  {
    var from := db.stages[source].result.value;
    && claim.stage in v.stages
    && SucceededAs(db.stages[claim.stage].(manifest := Some(manifest), call := None, tag := tag), v.stages[claim.stage],
         CachedResult(rules, from, Sanitize(rules, from), claim.target), Cache, Some(source), now)
    && Assigns(db, v, claim, StageStore.LabelsOf(db.assignments, source))
  }

  function RequestFor(stage: StageVersion, claim: Claimed): V.Request {
    V.Request(stage.mode, stage.policy, stage.labels, [claim.target])
  }

  /**
   * A reply that answers for the target leaves its result. Any other is retried or failed for an issue: the target's
   * own, or the one that concerns the payload as a whole.
   */
  ghost predicate RepliedTo(db: Db, v: Db, claim: Claimed, s: StageRun, payload: Json, stage: StageVersion, now: Time)
    requires claim.stage in db.stages
  {
    exists outcome: V.Validation ::
      && V.Outcome(outcome, payload, RequestFor(stage, claim)) && |outcome.valid| <= 1
      && if outcome.valid != [] then
           outcome.valid[0].target == claim.target && AnsweredRow(db, v, claim, s, outcome.valid[0], now)
         else exists issue | issue in outcome.issues ::
           && issue.target == (if V.Enveloped(payload, RequestFor(stage, claim)) then Some(claim.target) else None)
           && FailedRow(db, v, claim, s, Failure(CodeName(issue.code), ErrorName(issue.errorType), true, now),
                RetryAt(stage.baseDelay, stage.maxDelay, claim.attempts, now))
  }

  /** What a started call comes to. */
  ghost predicate Called(db: Db, v: Db, claim: Claimed, preparation: Preparation, invocation: Invocation,
      stage: StageVersion, now: Time)
    requires claim.stage in db.stages && preparation.Prepared?
  {
    var started := db.stages[claim.stage].(manifest := Some(preparation.manifest), call := Some(preparation.call),
                                           tag := preparation.tag);
    match invocation
    case ProviderFailed(code, kind, retryable) =>
      FailedRow(db, v, claim, started, Failure(code, kind, retryable, now),
        RetryAt(stage.baseDelay, stage.maxDelay, claim.attempts, now))
    case Replied(payload) => RepliedTo(db, v, claim, started, payload, stage, now)
  }

  /** Another stage run's succeeded row with the very same key, policy and scope, of which none completed later. */
  ghost predicate BestSource(db: Db, claim: Claimed, tag: CacheTag, source: Id) {
    && IsSource(db, claim, tag, source)
    && forall x | IsSource(db, claim, tag, x) :: !CompletedLater(db.stages[x], db.stages[source])
  }

  predicate IsSource(db: Db, claim: Claimed, tag: CacheTag, source: Id) {
    && source != claim.stage && source in db.stages && db.stages[source].status.StageSucceeded?
    && db.stages[source].result.Some? && db.stages[source].tag == tag && tag.key.Some?
  }

  predicate CompletedLater(a: StageRun, b: StageRun) {
    b.completedAt.Some? && (a.completedAt.None? || a.completedAt.value > b.completedAt.value)
  }

  /** What the claimed row comes to: failed unprepared, reused when there is a source, otherwise called. */
  ghost predicate Worked(db: Db, v: Db, claim: Claimed, rules: Rules, preparation: Preparation, invocation: Invocation,
      stage: StageVersion, now: Time)
    requires claim.stage in db.stages
  {
    match preparation
    case Unprepared(code, kind, retryable) =>
      FailedRow(db, v, claim, db.stages[claim.stage], Failure(code, kind, retryable, now),
        RetryAt(5, 300, claim.attempts, now))
    case Prepared(cached, tag, manifest, _) =>
      if cached && exists x :: IsSource(db, claim, tag, x) then
        exists source ::
          BestSource(db, claim, tag, source) && ReusedRow(db, v, claim, rules, manifest, tag, source, now)
      else Called(db, v, claim, preparation, invocation, stage, now)
  }

  // ---------------------------------------------------------------- the worker

  /** The claimed row and run are still there. */
  predicate Present(db: Db, claim: Claimed) { claim.stage in db.stages && claim.run in db.runs }

  /** The stage run is no longer held by this claim, and its run is over exactly when nothing of it is active. */
  ghost predicate Settled(db: Db, claim: Claimed, now: Time) {
    Present(db, claim) && !Locked(db, claim.AsTarget(), now)
      && (db.runs[claim.run].Terminal() <==> !AnyActive(db.stages, claim.run))
  }

  function FreshIds(from: nat, count: nat): (ids: seq<Id>)
    ensures |ids| == count
  {
    seq(count, i requires 0 <= i < count => from + i)
  }

  /** Rolling up, after the gate if there is one, settles what is no longer leased. */
  lemma FinishSettles(db: Db, claim: Claimed, gates: seq<GateItem>, now: Time)
    requires DbInv(db) && Present(db, claim) && !Locked(db, claim.AsTarget(), now)
    ensures
      var v := AfterRollUp(AfterGate(db, claim.run, gates, now), claim.run, now);
      DbInv(v) && Settled(v, claim, now)
  {
    var gated := AfterGate(db, claim.run, gates, now);
    GateKeeps(db, claim.run, gates, now);
    RollUpKeeps(gated, claim.run, now);
    RollUpStatus(gated, claim.run, now);
  }

  lemma {:induction false} GateItemsAre(made: seq<Assignment>)
    ensures forall item | item in GatesOf(made) ::
      exists i :: 0 <= i < |made| && made[i].Gates() && item == GateItem(made[i].message, made[i].stage, made[i].id)
    ensures GatesOf(made) != [] <==> exists i :: 0 <= i < |made| && made[i].Gates()
  {
    if made != [] {
      var n := |made| - 1;
      GateItemsAre(made[..n]);
      if GatesOf(made[..n]) != [] {
        var i :| 0 <= i < n && made[..n][i].Gates();
        assert made[i].Gates();
      }
      forall item | item in GatesOf(made)
        ensures exists i ::
          0 <= i < |made| && made[i].Gates() && item == GateItem(made[i].message, made[i].stage, made[i].id)
      {
        if item in GatesOf(made[..n]) {
          var i :| 0 <= i < n && made[..n][i].Gates()
            && item == GateItem(made[..n][i].message, made[..n][i].stage, made[..n][i].id);
          assert made[i] == made[..n][i];
        } else {
          assert made[n].Gates();
        }
      }
    }
  }

  predicate DistinctIds(assignments: seq<Assignment>) {
    forall i, j | 0 <= i < j < |assignments| :: assignments[i].id != assignments[j].id
  }

  lemma {:induction false} FindsByIndex(assignments: seq<Assignment>, i: nat)
    requires DistinctIds(assignments) && i < |assignments|
    ensures FindAssignment(assignments, assignments[i].id) == Some(assignments[i])
  {
    if i > 0 {
      assert assignments[0].id != assignments[i].id;
      FindsByIndex(assignments[1..], i - 1);
    }
  }

  /** The gate applies to the negative assignments a commit has just made, and blocks their message. */
  lemma FreshGateApplies(db: Db, claim: Claimed, from: nat, gates: seq<GateItem>, now: Time)
    requires DbInv(db) && DistinctIds(db.assignments) && Present(db, claim) && !db.runs[claim.run].mode.Test?
    requires from <= |db.assignments| && gates == GatesOf(db.assignments[from..])
    requires forall i | from <= i < |db.assignments| :: db.assignments[i].run == claim.run
    ensures gates != [] ==>
      GateApplies(db, claim.run, gates)
        && AfterGate(db, claim.run, gates, now).messages[db.runs[claim.run].message].blocked
  {
    var made := db.assignments[from..];
    GateItemsAre(made);
    forall i | 0 <= i < |gates| ensures ItemHolds(db, claim.run, gates[i]) && gates[i].message in db.messages {
      assert gates[i] in gates;
      var k :| 0 <= k < |made| && made[k].Gates() && gates[i] == GateItem(made[k].message, made[k].stage, made[k].id);
      assert made[k] == db.assignments[from + k];
      FindsByIndex(db.assignments, from + k);
      assert RunChecks(db.runs[claim.run]);
    }
    if gates != [] { GateNamesTheRun(db, claim.run, gates); }
  }

  /** What a commit adds for one row: assignments of the claim's run with unused IDs. */
  predicate AddsFor(db: Db, v: Db, claim: Claimed) {
    && |db.assignments| <= |v.assignments| && DistinctIds(v.assignments)
    && (forall i | |db.assignments| <= i < |v.assignments| :: v.assignments[i].run == claim.run)
    && v.runs == db.runs && v.messages == db.messages && Present(v, claim)
  }

  predicate Adds(db: Db, v: Db) { |db.assignments| <= |v.assignments| }

  /** Unless the run is a test, a new assignment that is activated and negative leaves its message blocked. */
  predicate BlocksIfGated(db: Db, v: Db, claim: Claimed)
    requires Present(db, claim) && Adds(db, v)
  {
    !claim.mode.Test? && GatesOf(v.assignments[|db.assignments|..]) != [] ==>
      db.runs[claim.run].message in v.messages && v.messages[db.runs[claim.run].message].blocked
  }

  predicate IdsBelow(db: Db, unused: nat) {
    DistinctIds(db.assignments) && forall i | 0 <= i < |db.assignments| :: db.assignments[i].id < unused
  }

  lemma NewAssignmentsAdd(db: Db, v: Db, claim: Claimed, labels: seq<Label>, unused: nat, s: StageRun)
    requires IdsBelow(db, unused) && s.run == claim.run && v.runs == db.runs && v.messages == db.messages
    requires Present(v, claim)
    requires v.assignments == db.assignments
      || v.assignments == db.assignments + NewAssignments(labels, FreshIds(unused, |labels|), claim.stage, s)
    ensures AddsFor(db, v, claim)
  {
  }

  /** The one target of a snapshot, committed from the cache. */
  lemma SingleHit(db: Db, rules: Rules, claim: Claimed, reuse: Reuse, mode: RunMode, unused: nat, now: Time)
    requires Present(db, claim) && IdsBelow(db, unused) && db.stages[claim.stage].run == claim.run
    ensures var ids :=
      FreshIds(unused, |reuse.labels|); var v := HitAll(db, rules, [claim.AsTarget()], reuse, mode, [ids], now);
      AddsFor(db, v, claim) && (ExactSource(db, reuse.source, reuse.tag) ==> !Locked(v, claim.AsTarget(), now))
  {
    var ids, t := FreshIds(unused, |reuse.labels|), claim.AsTarget();
    var v := HitAll(db, rules, [t], reuse, mode, [ids], now);
    var one: seq<seq<Id>> := [ids];
    assert [t][..0] == [] && one[..0] == [];
    assert HitAll(db, rules, [], reuse, mode, [], now) == db;
    assert v == AfterHit(db, rules, t, reuse.manifest, reuse.tag, reuse.source, reuse.parsed, mode, reuse.labels,
      ids, now);
    NewAssignmentsAdd(db, v, claim, reuse.labels, unused, db.stages[claim.stage]);
  }

  /** The one target of a snapshot, committed from at most one answer. */
  lemma SingleCommit(db: Db, claim: Claimed, call: Id, answers: seq<Answer>, mode: RunMode, unused: nat, now: Time)
    requires Present(db, claim) && IdsBelow(db, unused) && db.stages[claim.stage].run == claim.run && |answers| <= 1
    ensures AddsFor(db, CommitAll(db, [claim.AsTarget()], call, answers, mode, IdsOf(answers, unused), now), claim)
  {
    var t := claim.AsTarget();
    if answers == [] {
    } else {
      var ids := IdsOf(answers, unused);
      assert answers[..0] == [] && ids[..0] == [];
      assert CommitAll(db, [t], call, [], mode, [], now) == db;
      TargetForIn([t], answers[0].target);
      NewAssignmentsAdd(db, CommitAll(db, [t], call, answers, mode, ids, now), claim, answers[0].labels, unused,
        db.stages[claim.stage]);
    }
  }

  /** The one target of a snapshot, started. */
  lemma SingleStart(db: Db, claim: Claimed, manifest: Id, call: Id, tag: CacheTag, now: Time)
    requires Present(db, claim) && Locked(db, claim.AsTarget(), now)
    ensures var v := StartAll(db, [claim.AsTarget()], manifest, call, tag, now);
      && v.runs == db.runs && v.messages == db.messages && v.assignments == db.assignments && Present(v, claim)
      && v.stages[claim.stage] == db.stages[claim.stage].(manifest := Some(manifest), call := Some(call), tag := tag)
      && Locked(v, claim.AsTarget(), now)
  {
    var t := claim.AsTarget();
    assert [t][..0] == [];
    assert StartAll(db, [], manifest, call, tag, now) == db;
    assert StartAll(db, [t], manifest, call, tag, now) == AfterStart(db, t, manifest, call, tag, now);
  }

  function IdsOf(answers: seq<Answer>, unused: nat): (ids: seq<seq<Id>>)
    ensures |ids| == |answers| && forall i | 0 <= i < |ids| :: |ids[i]| == |answers[i].labels|
  {
    seq(|answers|, i requires 0 <= i < |answers| => FreshIds(unused, |answers[i].labels|))
  }

  lemma {:induction false} FailuresKeepTables(db: Db, targets: seq<Target>, names: seq<string>, failures: seq<Failure>,
      retryAt: Time)
    requires |failures| == |names|
    ensures var v := FailEach(db, targets, names, failures, retryAt);
      v.runs == db.runs && v.messages == db.messages && v.assignments == db.assignments
        && v.stages.Keys == db.stages.Keys
  {
    if names != [] { FailuresKeepTables(db, targets, names[..|names| - 1], failures[..|names| - 1], retryAt); }
  }

  lemma AmongOne(target: string, chosen: set<string>)
    ensures V.Among([target], chosen) == if target in chosen then [target] else []
  {
    assert [target][..0] == [];
    assert V.Among([target], chosen) == V.Among([], chosen) + if target in chosen then [target] else [];
  }

  /** The only target has a result and nothing is to be retried, or there is no result and it is to be retried. */
  predicate Decided(v: V.Validation, target: string) {
    || (|v.valid| == 1 && v.valid[0].target == target && v.retry == [])
    || (v.valid == [] && v.retry == [target])
  }

  lemma OneTargetSplit(v: V.Validation, target: string, answered: set<string>)
    requires V.SplitsBy(v, [target], answered)
    ensures Decided(v, target)
  {
    var rest := (set t | t in [target]) - answered;
    AmongOne(target, answered);
    AmongOne(target, rest);
    assert target in [target];
    if v.valid != [] { assert V.TargetsOf(v.valid)[0] == v.valid[0].target; }
  }

  lemma OneTargetDecided(v: V.Validation, payload: Json, req: V.Request, target: string)
    requires V.Outcome(v, payload, req) && req.expected == [target]
    ensures Decided(v, target)
  {
    var answered := V.ResultsAndRetriesPartition(v, payload, req);
    OneTargetSplit(v, target, answered);
  }

  /** The state after an answer's valid results are committed and its other targets put off or failed. */
  function AfterAnswer(
    db: Db, claim: Claimed, call: Id, answers: seq<Answer>, names: seq<string>, failures: seq<Failure>,
      retryAt: Time, unused: nat, now: Time): Db
    requires |failures| == |names|
  {
    var targets := [claim.AsTarget()];
    FailEach(CommitAll(db, targets, call, answers, claim.mode, IdsOf(answers, unused), now), targets, names,
      failures, retryAt)
  }

  lemma HandledLeaves(db: Db, claim: Claimed, call: Id, v: V.Validation, failures: seq<Failure>, retryAt: Time,
      unused: nat, now: Time)
    requires DbInv(db) && Present(db, claim) && IdsBelow(db, unused) && db.stages[claim.stage].run == claim.run
    requires Handled(v, claim.target) && |v.valid| <= 1
    requires |failures| == |v.retry| && (forall n | 0 <= n < |failures| :: failures[n].at == now)
    requires Locked(db, claim.AsTarget(), now) ==> db.stages[claim.stage].call == Some(call)
    ensures var after := AfterAnswer(db, claim, call, AnswersOf(v.valid), v.retry, failures, retryAt, unused, now);
      DbInv(after) && AddsFor(db, after, claim) && !Locked(after, claim.AsTarget(), now)
  {
    var targets, answers := [claim.AsTarget()], AnswersOf(v.valid);
    var committed := CommitAll(db, targets, call, answers, claim.mode, IdsOf(answers, unused), now);
    CommitAllKeeps(db, targets, call, answers, claim.mode, IdsOf(answers, unused), now);
    SingleCommit(db, claim, call, answers, claim.mode, unused, now);
    FailEachKeeps(committed, targets, v.retry, failures, retryAt);
    FailuresKeepTables(committed, targets, v.retry, failures, retryAt);
    HandledSettles(db, targets, call, v, claim.mode, IdsOf(answers, unused), failures, retryAt, now, 0);
  }

  /** What an answered call leaves: the invariant, no lease, and only assignments of the claim's run added. */
  lemma AnswerLeaves(db: Db, claim: Claimed, call: Id, v: V.Validation, payload: Json, req: V.Request,
      failures: seq<Failure>, retryAt: Time, unused: nat, now: Time)
    requires DbInv(db) && Present(db, claim) && IdsBelow(db, unused) && db.stages[claim.stage].run == claim.run
    requires V.Outcome(v, payload, req) && req.expected == [claim.target]
    requires |failures| == |v.retry| && (forall n | 0 <= n < |failures| :: failures[n].at == now)
    requires Locked(db, claim.AsTarget(), now) ==> db.stages[claim.stage].call == Some(call)
    ensures var after := AfterAnswer(db, claim, call, AnswersOf(v.valid), v.retry, failures, retryAt, unused, now);
      DbInv(after) && AddsFor(db, after, claim) && !Locked(after, claim.AsTarget(), now)
  {
    OneTargetDecided(v, payload, req, claim.target);
    EachTargetHandled(v, payload, req, claim.target);
    HandledLeaves(db, claim, call, v, failures, retryAt, unused, now);
  }

  // ---------------------------------------------------------------- one target's row, step by step

  /** Gate and roll-up leave a row that is not active as it was, and without gate items every row. */
  lemma FinishKeepsRow(db: Db, claim: Claimed, gates: seq<GateItem>, now: Time)
    requires Present(db, claim)
    ensures var v := AfterRollUp(AfterGate(db, claim.run, gates, now), claim.run, now);
      && v.assignments == db.assignments && claim.stage in v.stages
      && (gates == [] || !db.stages[claim.stage].Active() ==> v.stages[claim.stage] == db.stages[claim.stage])
  {
  }

  lemma FailureIs(db: Db, claim: Claimed, failure: Failure, retryAt: Time)
    requires Present(db, claim) && Locked(db, claim.AsTarget(), failure.at)
    ensures FailedRow(db, AfterFailure(db, claim.AsTarget(), failure, retryAt), claim, db.stages[claim.stage], failure,
      retryAt)
  {
  }

  /** The one target of a snapshot, put off or failed. */
  lemma SingleFailure(db: Db, claim: Claimed, failure: Failure, retryAt: Time)
    ensures FailEach(db, [claim.AsTarget()], [claim.target], [failure], retryAt)
      == AfterFailure(db, claim.AsTarget(), failure, retryAt)
  {
    var t := claim.AsTarget();
    assert [claim.target][..0] == [] && [failure][..0] == [];
    assert FailEach(db, [t], [], [], retryAt) == db;
  }

  lemma CommitIs(db: Db, claim: Claimed, call: Id, result: V.TargetResult, ids: seq<Id>, now: Time)
    requires Present(db, claim) && Commits(db, claim.AsTarget(), call, now) && |ids| == |result.labels|
    ensures var answer := Answer(result.target, DocumentOf(result), LabelsOf(result));
      var v := AfterCommit(db, claim.AsTarget(), call, answer, claim.mode, ids, now);
      AnsweredRow(db, v, claim, db.stages[claim.stage], result, now) && !v.stages[claim.stage].Active()
  {
    var answer := Answer(result.target, DocumentOf(result), LabelsOf(result));
    var v := AfterCommit(db, claim.AsTarget(), call, answer, claim.mode, ids, now);
    ResultIsStored(result);
    assert Assigns(db, v, claim, LabelsOf(result));
  }

  lemma OneAnswer(db: Db, claim: Claimed, call: Id, answers: seq<Answer>, unused: nat, now: Time)
    requires |answers| == 1 && answers[0].target == claim.target
    ensures CommitAll(db, [claim.AsTarget()], call, answers, claim.mode, IdsOf(answers, unused), now)
      == AfterCommit(db, claim.AsTarget(), call, answers[0], claim.mode, IdsOf(answers, unused)[0], now)
  {
    var t, ids := claim.AsTarget(), IdsOf(answers, unused);
    assert answers[..0] == [] && ids[..0] == [];
    assert CommitAll(db, [t], call, [], claim.mode, [], now) == db;
  }

  lemma ValidAnswerIs(db: Db, claim: Claimed, call: Id, v: V.Validation, failures: seq<Failure>, retryAt: Time,
      unused: nat, now: Time)
    requires Present(db, claim) && Commits(db, claim.AsTarget(), call, now)
    requires |v.valid| == 1 && v.valid[0].target == claim.target && v.retry == [] && failures == []
    ensures var after := AfterAnswer(db, claim, call, AnswersOf(v.valid), v.retry, failures, retryAt, unused, now);
      AnsweredRow(db, after, claim, db.stages[claim.stage], v.valid[0], now) && claim.stage in after.stages
        && !after.stages[claim.stage].Active()
  {
    var answers := AnswersOf(v.valid);
    OneAnswer(db, claim, call, answers, unused, now);
    CommitIs(db, claim, call, v.valid[0], IdsOf(answers, unused)[0], now);
  }

  lemma InvalidAnswerIs(db: Db, claim: Claimed, call: Id, v: V.Validation, failures: seq<Failure>, retryAt: Time,
      unused: nat, now: Time)
    requires Present(db, claim) && Locked(db, claim.AsTarget(), now)
    requires v.valid == [] && v.retry == [claim.target] && |failures| == 1 && failures[0].at == now
    ensures var after := AfterAnswer(db, claim, call, AnswersOf(v.valid), v.retry, failures, retryAt, unused, now);
      FailedRow(db, after, claim, db.stages[claim.stage], failures[0], retryAt)
  {
    assert failures == [failures[0]];
    SingleFailure(db, claim, failures[0], retryAt);
    FailureIs(db, claim, failures[0], retryAt);
  }

  lemma HitIs(db: Db, rules: Rules, claim: Claimed, manifest: Id, tag: CacheTag, source: Id, unused: nat, now: Time)
    requires DbInv(db) && Present(db, claim) && Locked(db, claim.AsTarget(), now) && IsSource(db, claim, tag, source)
    ensures var from := db.stages[source].result.value;
      var reuse := Reuse(manifest, tag, source, Sanitize(rules, from), StageStore.LabelsOf(db.assignments, source));
      var v := HitAll(db, rules, [claim.AsTarget()], reuse, claim.mode, [FreshIds(unused, |reuse.labels|)], now);
      ReusedRow(db, v, claim, rules, manifest, tag, source, now) && !v.stages[claim.stage].Active()
  {
    var t, from := claim.AsTarget(), db.stages[source].result.value;
    var reuse := Reuse(manifest, tag, source, Sanitize(rules, from), StageStore.LabelsOf(db.assignments, source));
    var ids := FreshIds(unused, |reuse.labels|);
    var one: seq<seq<Id>> := [ids];
    assert [t][..0] == [] && one[..0] == [];
    assert HitAll(db, rules, [], reuse, claim.mode, [], now) == db;
    var v := AfterHit(db, rules, t, manifest, tag, source, reuse.parsed, claim.mode, reuse.labels, ids, now);
    assert HitAll(db, rules, [t], reuse, claim.mode, one, now) == v;
    assert Assigns(db, v, claim, reuse.labels);
  }

  lemma SameRow(db: Db, v: Db, w: Db, claim: Claimed)
    requires claim.stage in v.stages && claim.stage in w.stages && w.stages[claim.stage] == v.stages[claim.stage]
    requires w.assignments == v.assignments && claim.stage in db.stages
    ensures forall s, failure, at :: FailedRow(db, v, claim, s, failure, at) ==> FailedRow(db, w, claim, s, failure, at)
    ensures forall s, result, now :: AnsweredRow(db, v, claim, s, result, now) ==>
      AnsweredRow(db, w, claim, s, result, now)
  {
    forall s, result, now | AnsweredRow(db, v, claim, s, result, now)
      ensures AnsweredRow(db, w, claim, s, result, now)
    {
      var document, labels :| Documents(result, document) && Labels(result, labels)
        && SucceededAs(s, v.stages[claim.stage], document, Inference, None, now) && Assigns(db, v, claim, labels);
      assert SucceededAs(s, w.stages[claim.stage], document, Inference, None, now) && Assigns(db, w, claim, labels);
    }
  }

  function FailureFor(issue: V.Issue, now: Time): Failure {
    Failure(CodeName(issue.code), ErrorName(issue.errorType), true, now)
  }

  /** The rows after gate and roll-up of what an answer has left. */
  function AfterFinish(db: Db, claim: Claimed, gates: seq<GateItem>, now: Time): Db {
    AfterRollUp(AfterGate(db, claim.run, gates, now), claim.run, now)
  }

  lemma ValidReplyIs(db: Db, claim: Claimed, call: Id, v: V.Validation, payload: Json, stage: StageVersion,
      retryAt: Time, unused: nat, gates: seq<GateItem>, now: Time)
    requires Present(db, claim) && Commits(db, claim.AsTarget(), call, now)
    requires V.Outcome(v, payload, RequestFor(stage, claim)) && v.valid != [] && Decided(v, claim.target)
    requires Present(AfterAnswer(db, claim, call, AnswersOf(v.valid), v.retry, [], retryAt, unused, now), claim)
    ensures var after := AfterAnswer(db, claim, call, AnswersOf(v.valid), v.retry, [], retryAt, unused, now);
      RepliedTo(db, AfterFinish(after, claim, gates, now), claim, db.stages[claim.stage], payload, stage, now)
  {
    var after := AfterAnswer(db, claim, call, AnswersOf(v.valid), v.retry, [], retryAt, unused, now);
    ValidAnswerIs(db, claim, call, v, [], retryAt, unused, now);
    FinishKeepsRow(after, claim, gates, now);
    SameRow(db, after, AfterFinish(after, claim, gates, now), claim);
  }

  lemma InvalidReplyIs(db: Db, claim: Claimed, call: Id, v: V.Validation, payload: Json, stage: StageVersion,
      failures: seq<Failure>, unused: nat, now: Time)
    requires Present(db, claim) && Locked(db, claim.AsTarget(), now) && !Blank(claim.target)
    requires V.Outcome(v, payload, RequestFor(stage, claim)) && v.retry == [claim.target] && v.valid == []
    requires v.issues != [] && failures == [FailureFor(IssueFor(v.issues, claim.target), now)]
    ensures var retryAt := RetryAt(stage.baseDelay, stage.maxDelay, claim.attempts, now);
      var after := AfterAnswer(db, claim, call, AnswersOf(v.valid), v.retry, failures, retryAt, unused, now);
      Present(after, claim) ==>
        RepliedTo(db, AfterFinish(after, claim, [], now), claim, db.stages[claim.stage], payload, stage, now)
  {
    var retryAt := RetryAt(stage.baseDelay, stage.maxDelay, claim.attempts, now);
    var after := AfterAnswer(db, claim, call, AnswersOf(v.valid), v.retry, failures, retryAt, unused, now);
    InvalidAnswerIs(db, claim, call, v, failures, retryAt, unused, now);
    RetryIssueIsItsOwn(v, payload, RequestFor(stage, claim), claim.target);
    if Present(after, claim) {
      FinishKeepsRow(after, claim, [], now);
      SameRow(db, after, AfterFinish(after, claim, [], now), claim);
    }
  }

  lemma ReplyIs(db: Db, after: Db, claim: Claimed, call: Id, v: V.Validation, payload: Json, stage: StageVersion,
      failures: seq<Failure>, unused: nat, gates: seq<GateItem>, now: Time)
    requires Present(db, claim) && Present(after, claim) && !Blank(claim.target)
    requires Locked(db, claim.AsTarget(), now) ==> db.stages[claim.stage].call == Some(call)
    requires V.Outcome(v, payload, RequestFor(stage, claim)) && (v.retry != [] ==> v.issues != [])
    requires |failures| == |v.retry|
    requires forall n | 0 <= n < |failures| :: failures[n] == FailureFor(IssueFor(v.issues, v.retry[n]), now)
    requires var retryAt := RetryAt(stage.baseDelay, stage.maxDelay, claim.attempts, now);
      after == AfterAnswer(db, claim, call, AnswersOf(v.valid), v.retry, failures, retryAt, unused, now)
    requires |db.assignments| <= |after.assignments| && gates == GatesOf(after.assignments[|db.assignments|..])
    ensures Locked(db, claim.AsTarget(), now) ==>
      RepliedTo(db, AfterFinish(after, claim, gates, now), claim, db.stages[claim.stage], payload, stage, now)
  {
    var retryAt := RetryAt(stage.baseDelay, stage.maxDelay, claim.attempts, now);
    OneTargetDecided(v, payload, RequestFor(stage, claim), claim.target);
    if Locked(db, claim.AsTarget(), now) {
      if v.valid != [] {
        assert failures == [];
        ValidReplyIs(db, claim, call, v, payload, stage, retryAt, unused, gates, now);
      } else {
        assert failures == [failures[0]];
        InvalidAnswerIs(db, claim, call, v, failures, retryAt, unused, now);
        assert after.assignments[|db.assignments|..] == [];
        InvalidReplyIs(db, claim, call, v, payload, stage, failures, unused, now);
      }
    }
  }

  /** The source is another row's exact one, with what `find_cache_hit` returned for it. */
  predicate ReusesSource(db: Db, claim: Claimed, rules: Rules, reuse: Reuse) {
    && IsSource(db, claim, reuse.tag, reuse.source)
    && reuse.parsed == Sanitize(rules, db.stages[reuse.source].result.value)
    && reuse.labels == StageStore.LabelsOf(db.assignments, reuse.source)
  }

  lemma ReuseIs(db: Db, rules: Rules, claim: Claimed, reuse: Reuse, unused: nat, gates: seq<GateItem>, now: Time)
    requires DbInv(db) && Present(db, claim) && Locked(db, claim.AsTarget(), now)
    requires ReusesSource(db, claim, rules, reuse)
    ensures var ids := [FreshIds(unused, |reuse.labels|)];
      var after := HitAll(db, rules, [claim.AsTarget()], reuse, claim.mode, ids, now);
      Present(after, claim) ==>
        ReusedRow(db, AfterFinish(after, claim, gates, now), claim, rules, reuse.manifest, reuse.tag, reuse.source, now)
  {
    HitIs(db, rules, claim, reuse.manifest, reuse.tag, reuse.source, unused, now);
    var after := HitAll(db, rules, [claim.AsTarget()], reuse, claim.mode, [FreshIds(unused, |reuse.labels|)], now);
    if Present(after, claim) { FinishKeepsRow(after, claim, gates, now); }
  }

  lemma SourcesAreCandidates(db: Db, claim: Claimed, tag: CacheTag)
    requires DbInv(db)
    ensures forall x :: IsSource(db, claim, tag, x) <==> Candidate(db, claim.stage, tag, x)
    ensures forall x | x in db.stages && db.stages[x].result.Some? :: db.stages[x].result.value.Obj?
  {
    forall x | x in db.stages && db.stages[x].result.Some? ensures db.stages[x].result.value.Obj? {
      assert StageChecks(db.stages[x]);
    }
  }

  lemma FoundIsBest(db: Db, claim: Claimed, tag: CacheTag, source: Id)
    requires DbInv(db) && Candidate(db, claim.stage, tag, source)
    requires forall x | Candidate(db, claim.stage, tag, x) && x != source :: Preferred(db.stages, source, x)
    ensures BestSource(db, claim, tag, source)
  {
    forall x | IsSource(db, claim, tag, x) ensures !CompletedLater(db.stages[x], db.stages[source]) {
      assert Candidate(db, claim.stage, tag, x);
    }
  }

  /** What a call comes to, told from the rows it was started on and from those before. */
  lemma CalledFromStarted(db: Db, started: Db, v: Db, claim: Claimed, preparation: Preparation, invocation: Invocation,
      stage: StageVersion, now: Time)
    requires preparation.Prepared? && claim.stage in db.stages && claim.stage in started.stages
    requires started.assignments == db.assignments
    requires started.stages[claim.stage] == db.stages[claim.stage].(manifest := Some(preparation.manifest),
      call := Some(preparation.call), tag := preparation.tag)
    requires match invocation
      case ProviderFailed(code, kind, retryable) =>
        FailedRow(started, v, claim, started.stages[claim.stage], Failure(code, kind, retryable, now),
          RetryAt(stage.baseDelay, stage.maxDelay, claim.attempts, now))
      case Replied(payload) => RepliedTo(started, v, claim, started.stages[claim.stage], payload, stage, now)
    ensures Called(db, v, claim, preparation, invocation, stage, now)
  {
    if invocation.Replied? {
      var s := started.stages[claim.stage];
      forall result | AnsweredRow(started, v, claim, s, result, now) ensures AnsweredRow(db, v, claim, s, result, now) {
        var document, labels :| Documents(result, document) && Labels(result, labels)
          && SucceededAs(s, v.stages[claim.stage], document, Inference, None, now)
          && Assigns(started, v, claim, labels);
        assert Assigns(db, v, claim, labels);
      }
    }
  }

  /** The rows of a claim as it left them. */
  ghost predicate UnderClaim(db: Db, claim: Claimed, now: Time) {
    && DbInv(db) && Present(db, claim) && Locked(db, claim.AsTarget(), now)
    && claim.mode == db.runs[claim.run].mode && db.stages[claim.stage].run == claim.run && !Blank(claim.target)
  }

  /** Target IDs are never blank. */
  predicate TargetNamed(db: Db, id: Id) { id in db.stages ==> !Blank(db.stages[id].target) }

  lemma ClaimIsHeld(db: Db, id: Id, token: Token, unused: nat, now: Time, until: Time)
    requires IdsBelow(db, unused) && DbInv(db) && Claims(db, id, now) && now < until && TargetNamed(db, id)
    ensures var v, claim := AfterClaim(db, id, token, now, until), ClaimOf(db, id, token);
      UnderClaim(v, claim, now) && IdsBelow(v, unused) && SameMessage(db, v, claim)
  {
    ClaimKeeps(db, id, token, now, until);
  }

  /**
   * What one pass leaves: nothing but the claim's refusal, or a settled
   * claim whose negative assignments block the message.
   */
  ghost predicate Passed(db: Db, v: Db, id: Id, token: Token, done: bool, now: Time, until: Time)
    requires Adds(db, v) && (done <==> Claims(db, id, now))
  {
    if done then Settled(v, ClaimOf(db, id, token), now) && BlocksIfGated(db, v, ClaimOf(db, id, token))
    else v == AfterClaim(db, id, token, now, until)
  }

  /** The claimed row under its new lease; no other stage run, message or assignment has changed. */
  predicate LeasedFrom(db: Db, held: Db, id: Id, token: Token, now: Time, until: Time) {
    && id in db.stages && id in held.stages && held.stages == db.stages[id := held.stages[id]]
    && StageProgress.LeasedNow(db.stages[id], held.stages[id], token, now, until)
    && held.messages == db.messages && held.assignments == db.assignments
  }

  /** What a pass makes of the row it claimed: leased, and then worked on. */
  ghost predicate WorkedOn(db: Db, v: Db, id: Id, token: Token, rules: Rules, preparation: Preparation,
      invocation: Invocation, stage: StageVersion, now: Time, until: Time)
  {
    && id in db.stages && db.stages[id].run in db.runs
    && exists held ::
         && LeasedFrom(db, held, id, token, now, until)
         && Worked(held, v, ClaimOf(db, id, token), rules, preparation, invocation, stage, now)
  }

  /** A stage run of an open run, waiting for a worker, with attempts left. */
  predicate Takes(db: Db, id: Id, now: Time) {
    && id in db.stages && StageProgress.Waits(db.stages[id], now) && db.stages[id].attempts < db.stages[id].maxAttempts
    && db.stages[id].run in db.runs
    && (db.runs[db.stages[id].run].status.RunPending? || db.runs[db.stages[id].run].status.RunRunning?)
  }

  lemma TakenAndWorked(db: Db, held: Db, v: Db, id: Id, token: Token, rules: Rules, preparation: Preparation,
      invocation: Invocation, stage: StageVersion, now: Time, until: Time)
    requires Claims(db, id, now) && held == AfterClaim(db, id, token, now, until)
    requires Worked(held, v, ClaimOf(db, id, token), rules, preparation, invocation, stage, now)
    ensures WorkedOn(db, v, id, token, rules, preparation, invocation, stage, now, until)
  {
    assert LeasedFrom(db, held, id, token, now, until);
  }

  /** Claiming assigns nothing and leaves the run its message. */
  predicate SameMessage(db: Db, held: Db, claim: Claimed) {
    && Present(db, claim) && Present(held, claim)
    && held.assignments == db.assignments && held.runs[claim.run].message == db.runs[claim.run].message
  }

  lemma PassFromClaim(db: Db, held: Db, v: Db, claim: Claimed)
    requires SameMessage(db, held, claim)
    requires Adds(held, v) && BlocksIfGated(held, v, claim)
    ensures Adds(db, v) && BlocksIfGated(db, v, claim)
  {
  }

  /** A claim that succeeded is held; one that did not leaves the invariant. */
  ghost predicate TakenOrLeft(db: Db, v: Db, claim: Option<Claimed>, unused: nat, now: Time) {
    match claim
    case Some(c) => UnderClaim(v, c, now) && IdsBelow(v, unused) && SameMessage(db, v, c)
    case None => DbInv(v)
  }

  lemma ClaimedOrNot(db: Db, id: Id, token: Token, unused: nat, now: Time, until: Time)
    requires DbInv(db) && IdsBelow(db, unused) && TargetNamed(db, id) && now < until
    ensures var claim := if Claims(db, id, now) then Some(ClaimOf(db, id, token)) else None;
      TakenOrLeft(db, AfterClaim(db, id, token, now, until), claim, unused, now)
  {
    ClaimKeeps(db, id, token, now, until);
    if Claims(db, id, now) { ClaimIsHeld(db, id, token, unused, now, until); }
  }

  class AnalysisStageRunWorker {
    const repository: Repository
    const rules: Rules
    const lease: int

    constructor (repository: Repository, rules: Rules, lease: int)
      ensures this.repository == repository && this.rules == rules && this.lease == lease
    {
      this.repository, this.rules, this.lease := repository, rules, lease;
    }

    method Finish(claim: Claimed, gates: seq<GateItem>, now: Time)
      requires DbInv(repository.State()) && Present(repository.State(), claim)
      requires !Locked(repository.State(), claim.AsTarget(), now)
      requires claim.mode == repository.runs[claim.run].mode
      modifies repository
      ensures repository.State() == AfterFinish(old(repository.State()), claim, gates, now)
      ensures DbInv(repository.State()) && Settled(repository.State(), claim, now)
    {
      FinishSettles(repository.State(), claim, gates, now);
      if !claim.mode.Test? && gates != [] {
        var _ := repository.ApplyNegativeGate(claim.run, gates, now);
      }
      var _ := repository.CompleteAnalysisRun(claim.run, now);
    }

    /** `_fail_claim` and the roll-up after it. */
    method FailClaim(claim: Claimed, code: string, kind: string, retryable: bool, now: Time)
      requires DbInv(repository.State()) && Present(repository.State(), claim)
      modifies repository
      ensures DbInv(repository.State()) && Settled(repository.State(), claim, now)
      ensures repository.assignments == old(repository.assignments)
      ensures old(Locked(repository.State(), claim.AsTarget(), now)) ==>
        FailedRow(old(repository.State()), repository.State(), claim, old(repository.stages[claim.stage]),
          Failure(code, kind, retryable, now), RetryAt(5, 300, claim.attempts, now))
    {
      var t, failure, retryAt :=
        claim.AsTarget(), Failure(code, kind, retryable, now), RetryAt(5, 300, claim.attempts, now);
      ghost var before := repository.State();
      repository.RetryOrFailRow(t, failure, retryAt);
      if Locked(before, t, now) {
        FailureIsRowStep(before, t, failure, retryAt);
        RowKeeps(before, repository.State(), t.stage);
        FailureIs(before, claim, failure, retryAt);
      }
      FinishSettles(repository.State(), claim, [], now);
      var _ := repository.CompleteAnalysisRun(claim.run, now);
    }

    /** The failures of the targets to retry, each with the issue found for it. */
    method FailuresFor(v: V.Validation, now: Time) returns (failures: seq<Failure>)
      requires v.retry != [] ==> v.issues != []
      ensures |failures| == |v.retry|
      ensures forall i | 0 <= i < |failures| :: failures[i] == FailureFor(IssueFor(v.issues, v.retry[i]), now)
    {
      failures := [];
      for n := 0 to |v.retry|
        invariant |failures| == n
        invariant forall i | 0 <= i < n :: failures[i] == FailureFor(IssueFor(v.issues, v.retry[i]), now)
      {
        var issue := IssueFor(v.issues, v.retry[n]);
        failures := failures + [Failure(CodeName(issue.code), ErrorName(issue.errorType), true, now)];
      }
    }

    /** Commit what is valid and put off or fail the rest. */
    method CommitAnswer(claim: Claimed, call: Id, v: V.Validation, stage: StageVersion, unused: nat, now: Time)
        returns (gates: seq<GateItem>, ghost failures: seq<Failure>, ghost retryAt: Time)
      requires v.retry != [] ==> v.issues != []
      modifies repository
      ensures retryAt == RetryAt(stage.baseDelay, stage.maxDelay, claim.attempts, now)
      ensures |failures| == |v.retry|
      ensures forall n | 0 <= n < |failures| :: failures[n] == FailureFor(IssueFor(v.issues, v.retry[n]), now)
      ensures repository.State()
        == AfterAnswer(old(repository.State()), claim, call, AnswersOf(v.valid), v.retry, failures, retryAt, unused,
          now)
      ensures |old(repository.assignments)| <= |repository.assignments|
      ensures gates == GatesOf(repository.assignments[|old(repository.assignments)|..])
    {
      var targets, answers := [claim.AsTarget()], AnswersOf(v.valid);
      gates := repository.CommitValidatedTargets(targets, call, answers, claim.mode, IdsOf(answers, unused), now);
      ghost var committed := repository.State();
      var named := FailuresFor(v, now);
      var at := RetryAt(stage.baseDelay, stage.maxDelay, claim.attempts, now);
      repository.RetryOrFailTargets(targets, v.retry, named, at);
      FailuresKeepTables(committed, targets, v.retry, named, at);
      failures, retryAt := named, at;
    }

    /**
     * An answered call: commit, gate and roll up. An activated negative label of a stored result blocks the message.
     */
    method SettleAnswer(claim: Claimed, call: Id, payload: Json, stage: StageVersion, unused: nat, now: Time)
      requires DbInv(repository.State()) && Present(repository.State(), claim) && IdsBelow(repository.State(), unused)
      requires claim.mode == repository.runs[claim.run].mode && repository.stages[claim.stage].run == claim.run
      requires !Blank(claim.target)
      requires Locked(repository.State(), claim.AsTarget(), now) ==> repository.stages[claim.stage].call == Some(call)
      modifies repository
      ensures DbInv(repository.State()) && Settled(repository.State(), claim, now)
      ensures Adds(old(repository.State()), repository.State())
      ensures BlocksIfGated(old(repository.State()), repository.State(), claim)
      ensures old(Locked(repository.State(), claim.AsTarget(), now)) ==>
        RepliedTo(old(repository.State()), repository.State(), claim, old(repository.stages[claim.stage]), payload,
          stage, now)
    {
      ghost var before := repository.State();
      var req := V.Request(stage.mode, stage.policy, stage.labels, [claim.target]);
      var r := V.Validate(payload, req);
      var v := r.value;
      if v.retry != [] { V.RetriesAreExplained(v, payload, req, v.retry[0]); }
      var gates, failures, retryAt := CommitAnswer(claim, call, v, stage, unused, now);
      AnswerLeaves(before, claim, call, v, payload, req, failures, retryAt, unused, now);
      if !claim.mode.Test? { FreshGateApplies(repository.State(), claim, |before.assignments|, gates, now); }
      ReplyIs(before, repository.State(), claim, call, v, payload, stage, failures, unused, gates, now);
      Finish(claim, gates, now);
    }

    /** Reuse of a found result: commit, gate and roll up. */
    method SettleHit(claim: Claimed, reuse: Reuse, unused: nat, now: Time)
      requires DbInv(repository.State()) && Present(repository.State(), claim) && IdsBelow(repository.State(), unused)
      requires claim.mode == repository.runs[claim.run].mode && repository.stages[claim.stage].run == claim.run
      requires ExactSource(repository.State(), reuse.source, reuse.tag)
      modifies repository
      ensures DbInv(repository.State()) && Settled(repository.State(), claim, now)
      ensures Adds(old(repository.State()), repository.State())
      ensures BlocksIfGated(old(repository.State()), repository.State(), claim)
      ensures
        old(Locked(repository.State(), claim.AsTarget(), now)) &&
        ReusesSource(old(repository.State()), claim, rules, reuse) ==>
          ReusedRow(old(repository.State()), repository.State(), claim, rules, reuse.manifest, reuse.tag, reuse.source,
            now)
    {
      ghost var before := repository.State();
      var targets, ids := [claim.AsTarget()], FreshIds(unused, |reuse.labels|);
      var gates := repository.CommitCacheHit(rules, targets, reuse, claim.mode, [ids], now);
      HitAllKeeps(before, rules, targets, reuse, claim.mode, [ids], now);
      SingleHit(before, rules, claim, reuse, claim.mode, unused, now);
      if !claim.mode.Test? { FreshGateApplies(repository.State(), claim, |before.assignments|, gates, now); }
      if Locked(before, claim.AsTarget(), now) && ReusesSource(before, claim, rules, reuse) {
        ReuseIs(before, rules, claim, reuse, unused, gates, now);
      }
      Finish(claim, gates, now);
    }

    /** A call the provider could not answer: put off or fail every target, then roll up. */
    method SettleProviderFailure(claim: Claimed, invocation: Invocation, stage: StageVersion, now: Time)
      requires invocation.ProviderFailed?
      requires DbInv(repository.State()) && Present(repository.State(), claim)
      modifies repository
      ensures DbInv(repository.State()) && Settled(repository.State(), claim, now)
      ensures repository.assignments == old(repository.assignments)
      ensures old(Locked(repository.State(), claim.AsTarget(), now)) ==>
        FailedRow(old(repository.State()), repository.State(), claim, old(repository.stages[claim.stage]),
          Failure(invocation.code, invocation.kind, invocation.retryable, now),
          RetryAt(stage.baseDelay, stage.maxDelay, claim.attempts, now))
    {
      ghost var before := repository.State();
      var targets, names := [claim.AsTarget()], [claim.target];
      var failures := [Failure(invocation.code, invocation.kind, invocation.retryable, now)];
      var retryAt := RetryAt(stage.baseDelay, stage.maxDelay, claim.attempts, now);
      repository.RetryOrFailTargets(targets, names, failures, retryAt);
      FailEachKeeps(before, targets, names, failures, retryAt);
      FailuresKeepTables(before, targets, names, failures, retryAt);
      FailureEndsLease(before, targets, names, failures, retryAt, now, 0, 0);
      SingleFailure(before, claim, failures[0], retryAt);
      if Locked(before, claim.AsTarget(), now) { FailureIs(before, claim, failures[0], retryAt); }
      FinishSettles(repository.State(), claim, [], now);
      var _ := repository.CompleteAnalysisRun(claim.run, now);
    }

    /** Start the call and settle what comes back; only a claim that lost its lease starts nothing. */
    method Call(claim: Claimed, preparation: Preparation, invocation: Invocation, stage: StageVersion, unused: nat,
        now: Time)
        returns (done: bool)
      requires preparation.Prepared? && UnderClaim(repository.State(), claim, now)
      requires IdsBelow(repository.State(), unused)
      modifies repository
      ensures done && DbInv(repository.State()) && Settled(repository.State(), claim, now)
      ensures Adds(old(repository.State()), repository.State())
      ensures BlocksIfGated(old(repository.State()), repository.State(), claim)
      ensures Called(old(repository.State()), repository.State(), claim, preparation, invocation, stage, now)
    {
      ghost var before := repository.State();
      var targets := [claim.AsTarget()];
      done := repository.StartInference(targets, preparation.manifest, preparation.call, preparation.tag, now);
      StartAllKeeps(before, targets, preparation.manifest, preparation.call, preparation.tag, now);
      SingleStart(before, claim, preparation.manifest, preparation.call, preparation.tag, now);
      ghost var started := repository.State();
      match invocation {
        case ProviderFailed(_, _, _) => SettleProviderFailure(claim, invocation, stage, now);
        case Replied(payload) => SettleAnswer(claim, preparation.call, payload, stage, unused, now);
      }
      CalledFromStarted(before, started, repository.State(), claim, preparation, invocation, stage, now);
    }

    /** The claim, and what holds while its lease does. */
    method Take(id: Id, token: Token, unused: nat, now: Time) returns (claim: Option<Claimed>)
      requires lease > 0 && DbInv(repository.State()) && IdsBelow(repository.State(), unused)
      requires TargetNamed(repository.State(), id)
      modifies repository
      ensures claim.Some? <==> old(Claims(repository.State(), id, now))
      ensures repository.State() == AfterClaim(old(repository.State()), id, token, now, now + lease)
      ensures claim.Some? ==> claim.value == old(ClaimOf(repository.State(), id, token))
      ensures TakenOrLeft(old(repository.State()), repository.State(), claim, unused, now)
    {
      ghost var before := repository.State();
      ClaimedOrNot(before, id, token, unused, now, now + lease);
      claim := repository.Claim(id, token, now, lease);
    }

    /** Everything after the claim. */
    method Work(claim: Claimed, preparation: Preparation, invocation: Invocation, stage: StageVersion, unused: nat,
        now: Time)
        returns (done: bool)
      requires UnderClaim(repository.State(), claim, now) && IdsBelow(repository.State(), unused)
      modifies repository
      ensures done && DbInv(repository.State()) && Settled(repository.State(), claim, now)
      ensures Adds(old(repository.State()), repository.State())
      ensures BlocksIfGated(old(repository.State()), repository.State(), claim)
      ensures Worked(old(repository.State()), repository.State(), claim, rules, preparation, invocation, stage, now)
    {
      var targets := repository.LoadStageSnapshot(claim);
      if preparation.Unprepared? || targets.None? {
        var error := if preparation.Unprepared? then preparation
          else Unprepared("INPUT_BUILD_ERROR", "DomainValidationError", false);
        FailClaim(claim, error.code, error.kind, error.retryable, now);
        return true;
      }
      ghost var before := repository.State();
      SourcesAreCandidates(before, claim, preparation.tag);
      if preparation.cached {
        var hit := repository.FindCacheHit(claim.stage, preparation.tag, rules);
        if hit.Some? {
          var labels := StageStore.LabelsOf(repository.assignments, hit.value.0);
          FoundIsBest(before, claim, preparation.tag, hit.value.0);
          SettleHit(claim, Reuse(preparation.manifest, preparation.tag, hit.value.0, hit.value.1, labels), unused, now);
          return true;
        }
      }
      done := Call(claim, preparation, invocation, stage, unused, now);
    }

    /**
     * `process`. A claimed stage run is never left under this claim, its run is over exactly when nothing of it is
     * active, and outside test runs a new negative assignment blocks the message.
     */
    method Process(id: Id, token: Token, preparation: Preparation, invocation: Invocation, stage: StageVersion,
        unused: nat, now: Time)
        returns (done: bool)
      requires lease > 0 && DbInv(repository.State()) && IdsBelow(repository.State(), unused)
      requires TargetNamed(repository.State(), id)
      modifies repository
      ensures DbInv(repository.State()) && Adds(old(repository.State()), repository.State())
      ensures done <==> old(Claims(repository.State(), id, now))
      ensures done <==> old(Takes(repository.State(), id, now))
      ensures done ==>
        WorkedOn(old(repository.State()), repository.State(), id, token, rules, preparation, invocation, stage, now,
          now + lease)
      ensures Passed(old(repository.State()), repository.State(), id, token, done, now, now + lease)
    {
      ghost var before := repository.State();
      var claimed := Take(id, token, unused, now);
      if claimed.None? { return false; }
      ghost var held := repository.State();
      done := Work(claimed.value, preparation, invocation, stage, unused, now);
      PassFromClaim(before, held, repository.State(), claimed.value);
      TakenAndWorked(before, held, repository.State(), id, token, rules, preparation, invocation, stage, now,
        now + lease);
    }
  }
}
