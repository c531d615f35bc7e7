/**
 * Analysis runs, their stage runs, and the transactions of the repository that lease, commit, fail and roll them up.
 */
module StageStore {
  import opened Json
  import L = Leases
  import opened Sanitizer

  type Id = L.Id
  type Token = L.Token
  type Time = int

  datatype RunMode = Formal | Reanalysis | Test

  datatype RunStatus = RunPending | RunRunning | RunCompleted | RunBlocked | RunFailed

  datatype AnalysisRun = AnalysisRun(message: Id, mode: RunMode, status: RunStatus, startedAt: Option<Time>,
    completedAt: Option<Time>)
  {
    predicate Terminal() { status.RunCompleted? || status.RunBlocked? || status.RunFailed? }
  }

  datatype StageStatus =
    | StagePending | StageRunning | StageRetryWait | StageSucceeded | StageFailed
    | StageSkippedCondition | StageSkippedGate

  datatype Origin = Inference | Cache

  /** The cache policy, scope and key columns; rows without a key are never cache sources. */
  datatype CacheTag = CacheTag(policy: string, scope: Option<string>, key: Option<string>)

  datatype Failure = Failure(code: string, kind: string, retryable: bool, at: Time)

  datatype StageRun = StageRun(
    run: Id,
    message: Id,
    target: string,
    status: StageStatus,
    attempts: int,
    maxAttempts: int,
    nextRetry: Option<Time>,
    token: Option<Token>,
    expires: Option<Time>,
    startedAt: Option<Time>,
    completedAt: Option<Time>,
    failure: Option<Failure>,
    manifest: Option<Id>,
    call: Option<Id>,
    tag: CacheTag,
    result: Option<Json>,
    origin: Option<Origin>,
    reusedFrom: Option<Id>)
  {
    predicate Active() { status.StagePending? || status.StageRunning? || status.StageRetryWait? }
  }

  datatype Message = Message(blocked: bool, blockedAt: Option<Time>, blockedBy: Option<(Id, Id)>)

  datatype Label = Label(key: string, score: real, activated: bool, negative: bool)

  datatype Assignment = Assignment(id: Id, stage: Id, run: Id, message: Id, verdict: Label)
  {
    predicate Gates() { verdict.activated && verdict.negative }
  }

  datatype Db = Db(runs: map<Id, AnalysisRun>, stages: map<Id, StageRun>, messages: map<Id, Message>,
    assignments: seq<Assignment>)

  function StartedBy(startedAt: Option<Time>, now: Time): Option<Time> {
    if startedAt.Some? then startedAt else Some(now)
  }

  // ---------------------------------------------------------------- claiming

  predicate Due(s: StageRun, now: Time) {
    || s.status.StagePending?
    || (s.status.StageRetryWait? && s.nextRetry.Some? && s.nextRetry.value <= now)
    || (s.status.StageRunning? && s.expires.Some? && s.expires.value <= now)
  }

  predicate Claimable(db: Db, id: Id, now: Time) {
    id in db.stages && Due(db.stages[id], now) && db.stages[id].run in db.runs && !db.runs[db.stages[id].run].Terminal()
  }

  predicate Claims(db: Db, id: Id, now: Time) {
    Claimable(db, id, now) && db.stages[id].attempts < db.stages[id].maxAttempts
  }

  predicate AnyActive(stages: map<Id, StageRun>, run: Id) {
    exists id :: id in stages && stages[id].run == run && stages[id].Active()
  }

  predicate AnyWith(stages: map<Id, StageRun>, run: Id, status: StageStatus) {
    exists id :: id in stages && stages[id].run == run && stages[id].status == status
  }

  function Taken(s: StageRun, token: Token, now: Time, until: Time): StageRun {
    s.(status := StageRunning, attempts := s.attempts + 1, nextRetry := None, token := Some(token),
       expires := Some(until), startedAt := StartedBy(s.startedAt, now))
  }

  function Reopened(r: AnalysisRun, now: Time): AnalysisRun {
    r.(status := RunRunning, startedAt := StartedBy(r.startedAt, now), completedAt := None)
  }

  function Closed(r: AnalysisRun, status: RunStatus, now: Time): AnalysisRun {
    r.(status := status, startedAt := StartedBy(r.startedAt, now), completedAt := Some(now))
  }

  function GivenUp(s: StageRun, failure: Failure): StageRun {
    s.(status := StageFailed, nextRetry := None, token := None, expires := None, failure := Some(failure),
       completedAt := Some(failure.at))
  }

  const LEASE_EXPIRED := "LEASE_EXPIRED"
  const WORKER_LEASE_EXPIRED := "WorkerLeaseExpired"

  /** `_terminalize_exhausted` */
  function AfterExhaustion(db: Db, id: Id, now: Time): Db
    requires id in db.stages && db.stages[id].run in db.runs
  {
    var run := db.stages[id].run;
    var stages := db.stages[id := GivenUp(db.stages[id], Failure(LEASE_EXPIRED, WORKER_LEASE_EXPIRED, false, now))];
    db.(stages := stages,
        runs := db.runs[run :=
          if AnyActive(stages, run) then Reopened(db.runs[run], now) else Closed(db.runs[run], RunFailed, now)])
  }

  function AfterClaim(db: Db, id: Id, token: Token, now: Time, until: Time): Db {
    if !Claimable(db, id, now) then db
    else if !Claims(db, id, now) then AfterExhaustion(db, id, now)
    else
      var run := db.stages[id].run;
      db.(stages := db.stages[id := Taken(db.stages[id], token, now, until)],
        runs := db.runs[run := Reopened(db.runs[run], now)])
  }

  // ---------------------------------------------------------------- work under a lease

  /** A snapshot's target: the stage run, the token it was claimed with, and the target ID. */
  datatype Target = Target(stage: Id, token: Token, target: string)

  /** `_lock_snapshot_targets` returns the row of this target. */
  predicate Locked(db: Db, t: Target, now: Time) {
    && t.stage in db.stages
    && var s := db.stages[t.stage];
    s.status.StageRunning? && s.expires.Some? && s.expires.value > now && s.token == Some(t.token)
      && s.target == t.target
  }

  function Cleared(s: StageRun, now: Time): StageRun {
    s.(status := StageSucceeded, nextRetry := None, token := None, expires := None, failure := None,
      completedAt := Some(now))
  }

  function NewAssignments(labels: seq<Label>, ids: seq<Id>, stage: Id, s: StageRun): (made: seq<Assignment>)
    requires |ids| == |labels|
    ensures |made| == |labels|
  {
    seq(|labels|, i requires 0 <= i < |labels| => Assignment(ids[i], stage, s.run, s.message, labels[i]))
  }

  function LabelsOf(assignments: seq<Assignment>, stage: Id): seq<Label> {
    if assignments == [] then []
    else
      var last := assignments[|assignments| - 1];
      LabelsOf(assignments[..|assignments| - 1], stage) + if last.stage == stage then [last.verdict] else []
  }

  /** `_exact_cache_source` */
  predicate ExactSource(db: Db, source: Id, tag: CacheTag) {
    && tag.key.Some? && source in db.stages
    && db.stages[source].status.StageSucceeded? && db.stages[source].result.Some? && db.stages[source].tag == tag
  }

  function CachedResult(rules: Rules, source: Json, hit: Json, target: string): Json {
    Rewrite(rules, if source == Obj(map[]) then hit else source, target)
  }

  predicate Hits(db: Db, t: Target, tag: CacheTag, source: Id, now: Time) {
    ExactSource(db, source, tag) && Locked(db, t, now)
  }

  /** One row of `commit_cache_hit`; the labels of the source's assignments are copied unless the run is a test. */
  function AfterHit(
    db: Db, rules: Rules, t: Target, manifest: Id, tag: CacheTag, source: Id, hit: Json, mode: RunMode,
      labels: seq<Label>, ids: seq<Id>, now: Time): Db
    requires |ids| == |labels|
  {
    if !Hits(db, t, tag, source, now) then db
    else
      var s := db.stages[t.stage];
      var result := CachedResult(rules, db.stages[source].result.value, hit, t.target);
      var row := Cleared(s, now).(manifest := Some(manifest), call := None, result := Some(result), tag := tag,
                                  origin := Some(Cache), reusedFrom := Some(source));
      db.(stages := db.stages[t.stage := row],
          assignments := if mode.Test? then db.assignments
            else db.assignments + NewAssignments(labels, ids, t.stage, s))
  }

  /** One row of `start_inference`. */
  function AfterStart(db: Db, t: Target, manifest: Id, call: Id, tag: CacheTag, now: Time): Db {
    if !Locked(db, t, now) then db
    else
      var row := db.stages[t.stage].(manifest := Some(manifest), call := Some(call), tag := tag);
      db.(stages := db.stages[t.stage := row])
  }

  /** A validated result as it is stored, with the labels assigned for it. */
  datatype Answer = Answer(target: string, document: Json, labels: seq<Label>)

  predicate Commits(db: Db, t: Target, call: Id, now: Time) {
    Locked(db, t, now) && db.stages[t.stage].call == Some(call)
  }

  /** One row of `commit_validated_targets`. */
  function AfterCommit(db: Db, t: Target, call: Id, answer: Answer, mode: RunMode, ids: seq<Id>, now: Time): Db
    requires |ids| == |answer.labels|
  {
    if !Commits(db, t, call, now) then db
    else
      var s := db.stages[t.stage];
      var row := Cleared(s, now).(result := Some(answer.document), origin := Some(Inference), reusedFrom := None);
      db.(stages := db.stages[t.stage := row],
          assignments := if mode.Test? then db.assignments
            else db.assignments + NewAssignments(answer.labels, ids, t.stage, s))
  }

  predicate Retries(db: Db, t: Target, retryable: bool) {
    t.stage in db.stages && retryable && db.stages[t.stage].attempts < db.stages[t.stage].maxAttempts
  }

  /** One row of `retry_or_fail_targets`; `retry_or_fail_claim` does the same for the claimed row. */
  function AfterFailure(db: Db, t: Target, failure: Failure, retryAt: Time): Db {
    if !Locked(db, t, failure.at) then db
    else
      var s := db.stages[t.stage];
      db.(stages := db.stages[t.stage :=
        if Retries(db, t, failure.retryable)
        then s.(status := StageRetryWait, nextRetry := Some(retryAt), token := None, expires := None,
                failure := Some(failure), completedAt := None)
        else GivenUp(s, failure)])
  }

  // ---------------------------------------------------------------- the negative gate

  datatype GateItem = GateItem(message: Id, stage: Id, assignment: Id)

  function FindAssignment(assignments: seq<Assignment>, id: Id): Option<Assignment> {
    if assignments == [] then None else if assignments[0].id == id then Some(assignments[0])
      else FindAssignment(assignments[1..], id)
  }

  /** The item names a stored, activated, negative assignment of the run, by its own message and stage run. */
  predicate ItemHolds(db: Db, run: Id, item: GateItem) {
    var found := FindAssignment(db.assignments, item.assignment);
    found.Some? && found.value.run == run && found.value.Gates() && found.value.message == item.message
      && found.value.stage == item.stage
  }

  predicate GateApplies(db: Db, run: Id, items: seq<GateItem>) {
    && items != [] && run in db.runs && !db.runs[run].mode.Test?
    && (forall i | 0 <= i < |items| :: ItemHolds(db, run, items[i]) && items[i].message in db.messages)
  }

  /** The first item that names the message. */
  function Cause(items: seq<GateItem>, message: Id): Option<GateItem> {
    if items == [] then None else if items[0].message == message then Some(items[0]) else Cause(items[1..], message)
  }

  function Skip(s: StageRun, now: Time): StageRun {
    s.(status := StageSkippedGate, nextRetry := None, token := None, expires := None, completedAt := Some(now))
  }

  predicate Gated(s: StageRun, run: Id, items: seq<GateItem>) {
    s.run == run && s.Active() && Cause(items, s.message).Some?
  }

  function Blocked(messages: map<Id, Message>, items: seq<GateItem>, now: Time): map<Id, Message> {
    map m | m in messages ::
      if !messages[m].blocked && Cause(items, m).Some?
      then Message(true, Some(now), Some((Cause(items, m).value.stage, Cause(items, m).value.assignment)))
        else messages[m]
  }

  function AfterGate(db: Db, run: Id, items: seq<GateItem>, now: Time): Db {
    if !GateApplies(db, run, items) then db
    else db.(
      messages := Blocked(db.messages, items, now),
      stages := map s | s in db.stages ::
        if Gated(db.stages[s], run, items) then Skip(db.stages[s], now) else db.stages[s],
      runs := db.runs[run := Closed(db.runs[run], RunBlocked, now)])
  }

  // ---------------------------------------------------------------- the roll-up

  function RolledUp(db: Db, run: Id, now: Time): AnalysisRun
    requires run in db.runs
  {
    var r := db.runs[run];
    if AnyActive(db.stages, run) then Reopened(r, now)
    else if AnyWith(db.stages, run, StageFailed) then Closed(r, RunFailed, now)
    else if r.status.RunBlocked? || AnyWith(db.stages, run, StageSkippedGate) then
      Closed(r, RunBlocked, now).(completedAt := StartedBy(r.completedAt, now))
    else Closed(r, RunCompleted, now)
  }

  function AfterRollUp(db: Db, run: Id, now: Time): Db {
    if run !in db.runs then db else db.(runs := db.runs[run := RolledUp(db, run, now)])
  }
}
