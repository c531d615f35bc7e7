/** Workers that fetch, ingest, advance and complete, and crash anywhere in between. */
module HistoryIngestion {
  import opened Json
  import opened Leases
  import opened RangeStore
  import opened RangeProtocol
  import R = RangeRuns
  import T = Telegram
  import I = Ingest
  import IR = IngestRuns
  import Convergence

  type Post = T.Delivery

  predicate InWindow(p: Post, c: Claimed) { p.channel == c.channel && c.low < p.part.id <= c.high }

  /** `_validate_history_window` */
  method ValidateHistoryWindow(posts: seq<Post>, claim: Claimed) returns (valid: bool)
    ensures valid <==> forall i | 0 <= i < |posts| :: InWindow(posts[i], claim)
  {
    for n := 0 to |posts|
      invariant forall i | 0 <= i < n :: InWindow(posts[i], claim)
    {
      if posts[n].channel != claim.channel { return false; }
      if !(claim.low < posts[n].part.id <= claim.high) { return false; }
    }
    valid := true;
  }

  // ---------------------------------------------------------------- what a post leaves in the tables

  /** The component has a row under the post's own message, with an edit time no earlier than the post's. */
  ghost predicate Stored(tables: I.Db, p: Post) {
    && var row := I.At(tables.rows, p.channel, p.part.id);
    row.Some? && row.value.owner == T.KeyOf(p) && T.NotLater(p.part.editedAt, row.value.part.editedAt)
  }

  /** The tables after one transaction of ingestion or of a source edit, whoever runs it. */
  function TablesAfter(tables: I.Db, op: IR.Op): I.Db { IR.Apply(IR.State(tables, {}), op).db }

  ghost predicate Keeps(tables: I.Db, after: I.Db) { forall p :: Stored(tables, p) ==> Stored(after, p) }

  lemma UpsertStays(tables: I.Db, m: T.Logical, p: Post)
    requires I.LogicalOk(m) && I.Upsert(tables, m).Ok? && Stored(tables, p)
    ensures Stored(I.Upsert(tables, m).value, p)
  {
    I.PutAllAt(tables.rows, T.KeyOfLogical(m), m.channel, m.parts, p.channel, p.part.id);
    if p.channel == m.channel && exists q :: q in m.parts && q.id == p.part.id {
      var q :| q in m.parts && q.id == p.part.id;
      assert I.At(I.Upsert(tables, m).value.rows, p.channel, p.part.id)
        == Some(I.Merged(I.At(tables.rows, p.channel, p.part.id).value, T.KeyOfLogical(m), q));
    }
  }

  lemma EditStays(tables: I.Db, e: I.Edit, p: Post)
    requires I.RecordEdit(tables, e).Ok? && Stored(tables, p)
    ensures Stored(I.RecordEdit(tables, e).value.0, p)
  {
    var row := I.At(tables.rows, e.channel, e.id);
    I.AtFinds(tables.rows, e.channel, e.id);
    if row.Some? && I.RecordEdit(tables, e).value.1 {
      I.ReplaceAt(tables.rows, e.channel, e.id, I.Edited(row.value.part, e), p.channel, p.part.id);
    }
  }

  /** No later transaction takes a stored post back. */
  lemma StoredStays(tables: I.Db, op: IR.Op)
    requires IR.OpOk(op)
    ensures Keeps(tables, TablesAfter(tables, op))
  {
    forall p | Stored(tables, p) ensures Stored(TablesAfter(tables, op), p) {
      match op
      case Deliver(m) => if I.Upsert(tables, m).Ok? { UpsertStays(tables, m, p); }
      case Change(e) => if I.RecordEdit(tables, e).Ok? { EditStays(tables, e, p); }
    }
  }

  /** A message that was upserted is stored, part by part. */
  lemma UpsertStores(tables: I.Db, m: T.Logical, p: Post)
    requires I.LogicalOk(m) && I.Upsert(tables, m).Ok? && p in IR.VersionsOf(m)
    ensures Stored(I.Upsert(tables, m).value, p)
  {
    I.PutAllAt(tables.rows, T.KeyOfLogical(m), m.channel, m.parts, p.channel, p.part.id);
    var n :| 0 <= n < |m.parts| && m.parts[n] == p.part;
    var rows := I.PutAll(tables.rows, T.KeyOfLogical(m), m.channel, m.parts);
    assert I.At(rows, m.channel, m.parts[n].id).Some?
      && I.At(rows, m.channel, m.parts[n].id).value.owner == T.KeyOfLogical(m);
  }

  /** A stored post is a member of its message. */
  lemma StoredIsMember(tables: I.Db, p: Post)
    requires I.DbInv(tables) && Stored(tables, p)
    ensures T.KeyOf(p) in tables.parents && p.part.id in tables.parents[T.KeyOf(p)].ids
  {
    I.AtFinds(tables.rows, p.channel, p.part.id);
    I.MembersAreOwned(tables, T.KeyOf(p));
  }

  // ---------------------------------------------------------------- workers

  /** Where a worker is inside `process`. */
  datatype Worker =
    | Resting
    | Holding(claim: Claimed)
    | Ingesting(claim: Claimed, posts: set<Post>, left: seq<T.Logical>)
    | Marked(claim: Claimed)

  /** A fetch that passed validation: the window asked for and what came back. */
  datatype Fetched = Fetched(channel: Id, low: int, high: int, posts: set<Post>)

  function FetchFor(c: Claimed, posts: set<Post>): Fetched { Fetched(c.channel, c.low, c.high, posts) }

  datatype World = World(base: R.World, workers: map<nat, Worker>, fetches: set<Fetched>, tables: I.Db)

  datatype Step =
    | Elsewhere(step: R.Step)                        // any transaction but a worker's claim, advance or completion
    | Claim(worker: nat, id: Id, token: Token, now: Time, until: Time)
    // whatever the gateway answers, and its normal form
    | Fetch(worker: nat, answer: seq<Post>, normal: seq<T.Logical>)
    | Ingest(worker: nat)                            // the next logical message, in its own transaction
    | OtherIngest(op: IR.Op)                         // an upsert or edit by anyone else
    | Advance(worker: nat, now: Time)
    | Complete(worker: nat, now: Time)
    | Crash(worker: nat)

  function WorkerAt(w: World, worker: nat): Worker { if worker in w.workers then w.workers[worker] else Resting }

  ghost predicate Next(w: World, step: Step, v: World) {
    match step
    case Elsewhere(s) =>
      !s.Claim? && !s.Advance? && !s.Complete? && R.Next(w.base, s, v.base) && v == w.(base := v.base)
    case Claim(worker, id, token, now, until) =>
      && WorkerAt(w, worker).Resting?
      && R.Next(w.base, R.Claim(id, token, now, until), v.base)
      && v == w.(base := v.base,
                 workers := if Claims(w.base.db, id, now) then
                   w.workers[worker := Holding(ClaimOf(w.base.db, id, token))] else w.workers)
    case Fetch(worker, answer, normal) =>
      && WorkerAt(w, worker).Holding? && (forall i | 0 <= i < |answer| :: T.PartOk(answer[i].part))
      && var claim, posts := WorkerAt(w, worker).claim, set p | p in answer;
      if (forall i | 0 <= i < |answer| :: InWindow(answer[i], claim)) && !T.Refused(answer)
      then
        && T.NormalForm(answer, normal)
        && v == w.(workers := w.workers[worker := Ingesting(claim, posts, normal)],
                   fetches := w.fetches + {FetchFor(claim, posts)})
      else v == w.(workers := w.workers[worker := Resting])
    case Ingest(worker) =>
      && WorkerAt(w, worker).Ingesting? && WorkerAt(w, worker).left != []
      && var at := WorkerAt(w, worker);
      v == w.(tables := TablesAfter(w.tables, IR.Deliver(at.left[0])),
              workers := w.workers[worker :=
                if I.Upsert(w.tables, at.left[0]).Ok? then at.(left := at.left[1..]) else Resting])
    case OtherIngest(op) => IR.OpOk(op) && v == w.(tables := TablesAfter(w.tables, op))
    case Advance(worker, now) =>
      && WorkerAt(w, worker).Ingesting? && WorkerAt(w, worker).left == []
      && var claim := WorkerAt(w, worker).claim;
      && R.Next(w.base, R.Advance(claim.id, claim.token, claim.high, now), v.base)
      && v == w.(base := v.base,
                 workers := w.workers[worker :=
                   if Advances(w.base.db, claim.id, claim.token, claim.high, now) then Marked(claim) else Resting])
    case Complete(worker, now) =>
      && WorkerAt(w, worker).Marked?
      && var claim := WorkerAt(w, worker).claim;
      && R.Next(w.base, R.Complete(claim.id, claim.token, now), v.base)
      && v == w.(base := v.base, workers := w.workers[worker := Resting])
    case Crash(worker) => v == w.(workers := w.workers - {worker})
  }

  predicate Initial(w: World) {
    R.Initial(w.base) && w.workers == map[] && w.fetches == {} && w.tables == I.Db([], map[])
  }

  ghost predicate IsRun(steps: seq<Step>, worlds: seq<World>) {
    && |worlds| == |steps| + 1 && Initial(worlds[0])
    && forall i | 0 <= i < |steps| :: Next(worlds[i], steps[i], worlds[i + 1])
  }

  // ---------------------------------------------------------------- the invariant

  /** A claim names an execution by its immutable columns. */
  predicate Names(db: Db, c: Claimed) {
    && c.id in db.executions && db.executions[c.id].range in db.ranges
    && db.executions[c.id].low == c.low && db.executions[c.id].high == c.high
      && db.ranges[db.executions[c.id].range].channel == c.channel
  }

  ghost predicate WorkerInv(w: World, at: Worker) {
    match at
    case Resting => true
    case Ingesting(claim, posts, left) =>
      && Names(w.base.db, claim) && FetchFor(claim, posts) in w.fetches && (forall m | m in left :: I.LogicalOk(m))
      && forall p | p in posts :: InWindow(p, claim) && (Stored(w.tables, p) || p in Convergence.Delivered(left))
    case _ => Names(w.base.db, at.claim)
  }

  /** Every post of a whole fetch of the execution's window is stored. */
  ghost predicate Backs(db: Db, id: Id, f: Fetched, tables: I.Db) {
    && id in db.executions && db.executions[id].range in db.ranges
    && f.channel == db.ranges[db.executions[id].range].channel
    && f.low == db.executions[id].low && f.high == db.executions[id].high
    && forall p | p in f.posts :: p.channel == f.channel && f.low < p.part.id <= f.high && Stored(tables, p)
  }

  ghost predicate Backed(w: World, id: Id) { exists f :: f in w.fetches && Backs(w.base.db, id, f, w.tables) }

  predicate MarkIsBound(e: Execution) { e.watermark == e.low || e.watermark == e.high }

  /** A mark stands at a bound of its window, at the right one only with a whole fetch stored. */
  ghost predicate RowInv(w: World, id: Id)
    requires id in w.base.db.executions
  {
    var e := w.base.db.executions[id];
    MarkIsBound(e) && (e.watermark == e.high ==> Backed(w, id))
  }

  ghost predicate Inv(w: World) {
    && R.Inv(w.base) && I.DbInv(w.tables)
    && (forall k | k in w.workers :: WorkerInv(w, w.workers[k]))
    && (forall id | id in w.base.db.executions :: RowInv(w, id))
  }

  /** Rows keep the columns that are never updated, and every mark but that of `moved`. */
  ghost predicate Carried(db: Db, v: Db, moved: set<Id>) {
    && (forall r | r in db.ranges :: r in v.ranges && v.ranges[r].channel == db.ranges[r].channel)
    && (forall id | id in db.executions ::
          && id in v.executions && v.executions[id].range == db.executions[id].range
          && v.executions[id].low == db.executions[id].low && v.executions[id].high == db.executions[id].high
          && (id !in moved ==> v.executions[id].watermark == db.executions[id].watermark))
    && (forall id | id in v.executions && id !in db.executions ::
      v.executions[id].watermark == v.executions[id].low < v.executions[id].high)
  }

  lemma FreezeCarries(db: Db, w: Window, wakeup: Id, at: Time)
    requires w.id !in db.executions
    ensures Carried(db, AfterFreeze(db, w, wakeup, at), {})
  {
  }

  lemma ClaimCarries(db: Db, id: Id, token: Token, now: Time, until: Time)
    ensures Carried(db, AfterClaim(db, id, token, now, until), {})
  {
  }

  lemma CompleteCarries(db: Db, id: Id, token: Token, now: Time)
    ensures Carried(db, AfterComplete(db, id, token, now), {})
  {
  }

  lemma FailCarries(db: Db, id: Id, token: Token, failure: Failure, retryable: bool, retryAt: Time)
    ensures Carried(db, AfterFail(db, id, token, failure, retryable, retryAt), {})
  {
  }

  lemma StepCarries(w: R.World, step: R.Step, v: R.World)
    requires R.Next(w, step, v)
    ensures Carried(w.db, v.db, if step.Advance? then {step.id} else {})
  {
    match step
    case Freeze(window, wakeup, at) => FreezeCarries(w.db, window, wakeup, at);
    case Claim(id, token, now, until) => ClaimCarries(w.db, id, token, now, until);
    case Complete(id, token, now) => CompleteCarries(w.db, id, token, now);
    case Fail(id, token, failure, retryable, retryAt) => FailCarries(w.db, id, token, failure, retryable, retryAt);
    case _ =>
  }

  /** Everything the invariant says of rows survives a step that carries them, whatever else was ingested. */
  lemma CarriedKeeps(w: World, v: World)
    requires Inv(w) && R.Inv(v.base) && Carried(w.base.db, v.base.db, {})
    requires w.fetches <= v.fetches && Keeps(w.tables, v.tables)
    ensures forall id | id in v.base.db.executions :: RowInv(v, id)
  {
    forall id | id in v.base.db.executions ensures RowInv(v, id) {
      assert id in w.base.db.executions ==> RowInv(w, id);
      if id in w.base.db.executions && v.base.db.executions[id].watermark == v.base.db.executions[id].high {
        BackedStill(w, v, id);
      }
    }
  }

  lemma BackedStill(w: World, v: World, id: Id)
    requires Backed(w, id) && w.fetches <= v.fetches && Keeps(w.tables, v.tables)
    requires id in w.base.db.executions ==> Carried(w.base.db, v.base.db, {id})
    ensures Backed(v, id)
  {
    var f :| f in w.fetches && Backs(w.base.db, id, f, w.tables);
    assert f in v.fetches && Backs(v.base.db, id, f, v.tables);
  }

  lemma WorkersStill(w: World, v: World, moved: set<Id>, at: Worker)
    requires WorkerInv(w, at) && Carried(w.base.db, v.base.db, moved) && w.fetches <= v.fetches
    requires Keeps(w.tables, v.tables)
    ensures WorkerInv(v, at)
  {
  }

  lemma ProtocolKeeps(w: World, s: R.Step, v: World)
    requires Inv(w) && R.Next(w.base, s, v.base) && !s.Advance? && v.fetches == w.fetches && v.tables == w.tables
    requires forall k | k in v.workers :: (k in w.workers && v.workers[k] == w.workers[k]) || WorkerInv(v, v.workers[k])
    ensures Inv(v)
  {
    R.StepKeeps(w.base, s, v.base);
    StepCarries(w.base, s, v.base);
    CarriedKeeps(w, v);
    forall k | k in v.workers ensures WorkerInv(v, v.workers[k]) {
      if k in w.workers && v.workers[k] == w.workers[k] { WorkersStill(w, v, {}, w.workers[k]); }
    }
  }

  lemma ClaimNames(w: World, id: Id, token: Token, now: Time, until: Time, v: R.World)
    requires Inv(w) && R.Next(w.base, R.Claim(id, token, now, until), v) && Claims(w.base.db, id, now)
    ensures Names(v.db, ClaimOf(w.base.db, id, token))
  {
    R.StepKeeps(w.base, R.Claim(id, token, now, until), v);
    StepCarries(w.base, R.Claim(id, token, now, until), v);
  }

  /** A local step: the rows do not change, and the worker that moves is still sound. */
  lemma LocalKeeps(w: World, v: World)
    requires Inv(w) && v.base == w.base && w.fetches <= v.fetches && Keeps(w.tables, v.tables) && I.DbInv(v.tables)
    requires forall k | k in v.workers :: (k in w.workers && v.workers[k] == w.workers[k]) || WorkerInv(v, v.workers[k])
    ensures Inv(v)
  {
    forall id | id in v.base.db.executions ensures v.base.db.executions[id].low < v.base.db.executions[id].high {
      assert ExecutionChecks(v.base.db.executions[id]);
    }
    CarriedKeeps(w, v);
    forall k | k in v.workers ensures WorkerInv(v, v.workers[k]) {
      if k in w.workers && v.workers[k] == w.workers[k] { WorkersStill(w, v, {}, w.workers[k]); }
    }
  }

  /** The fetch of a worker that has ingested everything backs the execution it names. */
  lemma IngestedBacks(w: World, at: Worker, v: World)
    requires at.Ingesting? && at.left == [] && WorkerInv(w, at) && v.fetches == w.fetches && v.tables == w.tables
    requires Carried(w.base.db, v.base.db, {at.claim.id})
    ensures Backed(v, at.claim.id)
  {
    assert Backs(v.base.db, at.claim.id, FetchFor(at.claim, at.posts), v.tables);
  }

  lemma MarkAfterAdvance(db: Db, id: Id, token: Token, mark: int, now: Time)
    requires id in db.executions && db.executions[id].high == mark && MarkIsBound(db.executions[id])
    ensures id in AfterAdvance(db, id, token, mark, now).executions
    ensures MarkIsBound(AfterAdvance(db, id, token, mark, now).executions[id])
  {
  }

  lemma AdvanceBacks(w: World, worker: nat, now: Time, v: World)
    requires Inv(w) && Next(w, Advance(worker, now), v)
    requires Carried(w.base.db, v.base.db, {w.workers[worker].claim.id})
    ensures var id := w.workers[worker].claim.id;
      id in v.base.db.executions && RowInv(v, id)
  {
    var at := w.workers[worker];
    assert WorkerInv(w, at) && RowInv(w, at.claim.id);
    MarkAfterAdvance(w.base.db, at.claim.id, at.claim.token, at.claim.high, now);
    IngestedBacks(w, at, v);
  }

  lemma OthersStayBacked(w: World, v: World, moved: Id)
    requires Inv(w) && Carried(w.base.db, v.base.db, {moved}) && v.fetches == w.fetches && v.tables == w.tables
    ensures forall id | id in v.base.db.executions && id != moved :: RowInv(v, id)
  {
    forall id | id in v.base.db.executions && id != moved ensures RowInv(v, id) {
      assert id in w.base.db.executions ==> RowInv(w, id);
      if id in w.base.db.executions && v.base.db.executions[id].watermark == v.base.db.executions[id].high {
        var f :| f in w.fetches && Backs(w.base.db, id, f, w.tables);
        assert Backs(v.base.db, id, f, v.tables);
      }
    }
  }

  lemma AdvanceWorkers(w: World, worker: nat, now: Time, v: World)
    requires Inv(w) && Next(w, Advance(worker, now), v) && Carried(w.base.db, v.base.db, {w.workers[worker].claim.id})
    ensures forall k | k in v.workers :: WorkerInv(v, v.workers[k])
  {
    var claim := w.workers[worker].claim;
    forall k | k in v.workers ensures WorkerInv(v, v.workers[k]) {
      assert WorkerInv(w, w.workers[k]);
      if k == worker {
        WorkersStill(w, v, {claim.id}, Marked(claim));
      } else {
        WorkersStill(w, v, {claim.id}, w.workers[k]);
      }
    }
  }

  lemma AdvanceKeeps(w: World, worker: nat, now: Time, v: World)
    requires Inv(w) && Next(w, Advance(worker, now), v)
    ensures Inv(v)
  {
    var claim := w.workers[worker].claim;
    var s := R.Advance(claim.id, claim.token, claim.high, now);
    R.StepKeeps(w.base, s, v.base);
    StepCarries(w.base, s, v.base);
    AdvanceBacks(w, worker, now, v);
    OthersStayBacked(w, v, claim.id);
    AdvanceWorkers(w, worker, now, v);
  }

  lemma FetchKeeps(w: World, worker: nat, answer: seq<Post>, normal: seq<T.Logical>, v: World)
    requires Inv(w) && Next(w, Fetch(worker, answer, normal), v)
    ensures Inv(v)
  {
    assert WorkerInv(w, w.workers[worker]);
    if v.workers[worker].Ingesting? {
      Convergence.BatchIsDelivered(answer, normal);
      forall m | m in normal ensures I.LogicalOk(m) { Convergence.MessageIsSound(answer, normal, m); }
    }
    LocalKeeps(w, v);
  }

  /** What is left to ingest after the first message has been upserted. */
  lemma NextIngested(w: World, at: Worker, v: World)
    requires WorkerInv(w, at) && at.Ingesting? && at.left != [] && I.Upsert(w.tables, at.left[0]).Ok?
    requires v.base == w.base && v.fetches == w.fetches && v.tables == I.Upsert(w.tables, at.left[0]).value
    ensures WorkerInv(v, at.(left := at.left[1..]))
  {
    assert at.left[0] in at.left;
    StoredStays(w.tables, IR.Deliver(at.left[0]));
    Convergence.DeliveredElements(at.left);
    Convergence.DeliveredElements(at.left[1..]);
    forall p | p in at.posts ensures Stored(v.tables, p) || p in Convergence.Delivered(at.left[1..]) {
      if !Stored(w.tables, p) {
        var m :| m in at.left && p in IR.VersionsOf(m);
        if m == at.left[0] { UpsertStores(w.tables, m, p); } else { assert m in at.left[1..]; }
      }
    }
  }

  /** A transaction on the tables by anyone: the invariant stays if the worker that ran it, if any, is still sound. */
  lemma TablesKeep(w: World, op: IR.Op, v: World)
    requires Inv(w) && IR.OpOk(op) && v.base == w.base && v.fetches == w.fetches
    requires v.tables == TablesAfter(w.tables, op)
    requires forall k | k in v.workers :: (k in w.workers && v.workers[k] == w.workers[k]) || WorkerInv(v, v.workers[k])
    ensures Inv(v)
  {
    StoredStays(w.tables, op);
    IR.ApplyKeeps(IR.State(w.tables, {}), op);
    LocalKeeps(w, v);
  }

  lemma IngestKeeps(w: World, worker: nat, v: World)
    requires Inv(w) && Next(w, Ingest(worker), v)
    ensures Inv(v)
  {
    var at := w.workers[worker];
    assert WorkerInv(w, at) && at.left[0] in at.left;
    if I.Upsert(w.tables, at.left[0]).Ok? { NextIngested(w, at, v); }
    TablesKeep(w, IR.Deliver(at.left[0]), v);
  }

  lemma OtherIngestKeeps(w: World, op: IR.Op, v: World)
    requires Inv(w) && Next(w, OtherIngest(op), v)
    ensures Inv(v)
  {
    TablesKeep(w, op, v);
  }

  lemma ClaimStepKeeps(w: World, worker: nat, id: Id, token: Token, now: Time, until: Time, v: World)
    requires Inv(w) && Next(w, Claim(worker, id, token, now, until), v)
    ensures Inv(v)
  {
    if Claims(w.base.db, id, now) { ClaimNames(w, id, token, now, until, v.base); }
    ProtocolKeeps(w, R.Claim(id, token, now, until), v);
  }

  lemma CompleteStepKeeps(w: World, worker: nat, now: Time, v: World)
    requires Inv(w) && Next(w, Complete(worker, now), v)
    ensures Inv(v)
  {
    ProtocolKeeps(w, R.Complete(w.workers[worker].claim.id, w.workers[worker].claim.token, now), v);
  }

  lemma StepKeeps(w: World, step: Step, v: World)
    requires Inv(w) && Next(w, step, v)
    ensures Inv(v)
  {
    match step
    case Elsewhere(s) => ProtocolKeeps(w, s, v);
    case Claim(worker, id, token, now, until) => ClaimStepKeeps(w, worker, id, token, now, until, v);
    case Fetch(worker, answer, normal) => FetchKeeps(w, worker, answer, normal, v);
    case Ingest(worker) => IngestKeeps(w, worker, v);
    case OtherIngest(op) => OtherIngestKeeps(w, op, v);
    case Advance(worker, now) => AdvanceKeeps(w, worker, now, v);
    case Complete(worker, now) => CompleteStepKeeps(w, worker, now, v);
    case Crash(worker) => LocalKeeps(w, v);
  }

  lemma {:induction false} RunKeeps(steps: seq<Step>, worlds: seq<World>, n: nat)
    requires IsRun(steps, worlds) && n < |worlds|
    ensures Inv(worlds[n])
  {
    if n > 0 {
      RunKeeps(steps, worlds, n - 1);
      StepKeeps(worlds[n - 1], steps[n - 1], worlds[n]);
    } else {
      R.InitialInv(worlds[0].base);
    }
  }

  /**
   * An execution that reached its right bound, hence any completed one, has
   * every post of a fetch of its whole window stored.
   */
  lemma ReachedMeansIngested(steps: seq<Step>, worlds: seq<World>, n: nat, id: Id)
    requires IsRun(steps, worlds) && n < |worlds| && id in worlds[n].base.db.executions
    ensures worlds[n].base.db.executions[id].watermark == worlds[n].base.db.executions[id].high ==>
      Backed(worlds[n], id)
    ensures worlds[n].base.db.executions[id].status.Completed? ==> Backed(worlds[n], id)
  {
    RunKeeps(steps, worlds, n);
    assert ExecutionChecks(worlds[n].base.db.executions[id]) && RowInv(worlds[n], id);
  }

  /**
   * Everything behind the watermark of a range lies in the window of a
   * completed execution with a whole fetch stored.
   */
  lemma WatermarkMeansIngested(steps: seq<Step>, worlds: seq<World>, n: nat, range: Id, m: int) returns (id: Id)
    requires IsRun(steps, worlds) && n < |worlds| && range in worlds[n].base.db.ranges
    requires var r := worlds[n].base.db.ranges[range]; r.start.Some? && r.start.value <= m <= Progress(r)
    ensures Covers(worlds[n].base.db, range, id, m) && Backed(worlds[n], id)
  {
    RunKeeps(steps, worlds, n);
    var db := worlds[n].base.db;
    assert Tiled(db, range) && Covered(db, range, m);
    id :| Covers(db, range, id, m);
    assert ExecutionChecks(db.executions[id]) && RowInv(worlds[n], id);
  }

  /** A post of such a fetch is a member of its message, with a row no older than the post. */
  lemma FetchedPostsAreMembers(steps: seq<Step>, worlds: seq<World>, n: nat, id: Id, f: Fetched, p: Post)
    requires IsRun(steps, worlds) && n < |worlds|
    requires f in worlds[n].fetches && Backs(worlds[n].base.db, id, f, worlds[n].tables) && p in f.posts
    ensures Stored(worlds[n].tables, p)
    ensures T.KeyOf(p) in worlds[n].tables.parents && p.part.id in worlds[n].tables.parents[T.KeyOf(p)].ids
  {
    RunKeeps(steps, worlds, n);
    StoredIsMember(worlds[n].tables, p);
  }
}
