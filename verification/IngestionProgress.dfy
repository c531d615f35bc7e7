/** What the history worker gets done: one undisturbed pass ingests a window and completes its execution. */
module IngestionProgress {
  import opened Json
  import opened Leases
  import opened RangeStore
  import opened HistoryIngestion
  import R = RangeRuns
  import P = RangeProgress
  import T = Telegram
  import I = Ingest
  import IR = IngestRuns

  /** Some steps lead from one state to the other. */
  ghost predicate Reaches(w: World, v: World) {
    exists steps, worlds :: Leads(w, steps, worlds) && worlds[|steps|] == v
  }

  ghost predicate Leads(w: World, steps: seq<Step>, worlds: seq<World>) {
    && |worlds| == |steps| + 1 && worlds[0] == w
    && forall i | 0 <= i < |steps| :: Next(worlds[i], steps[i], worlds[i + 1])
  }

  lemma ReachesNext(w: World, step: Step, v: World)
    requires Next(w, step, v)
    ensures Reaches(w, v)
  {
    assert Leads(w, [step], [w, v]);
  }

  lemma ReachesOn(w: World, v: World, x: World)
    requires Reaches(w, v) && Reaches(v, x)
    ensures Reaches(w, x)
  {
    var steps, worlds :| Leads(w, steps, worlds) && worlds[|steps|] == v;
    var more, then_ :| Leads(v, more, then_) && then_[|more|] == x;
    var all, states := steps + more, worlds + then_[1..];
    forall i | 0 <= i < |all| ensures Next(states[i], all[i], states[i + 1]) {
      if i < |steps| {
        assert states[i] == worlds[i] && states[i + 1] == worlds[i + 1];
      } else {
        assert states[i] == then_[i - |steps|] && states[i + 1] == then_[i - |steps| + 1];
      }
    }
    assert Leads(w, all, states) && states[|all|] == then_[|more|];
  }

  /** The messages can be ingested one after the other. */
  predicate Fits(tables: I.Db, messages: seq<T.Logical>)
    decreases |messages|
  {
    messages == [] ||
    (I.Upsert(tables, messages[0]).Ok? && Fits(I.Upsert(tables, messages[0]).value, messages[1..]))
  }

  /** Every post of the answer lies in the window of the execution and comes from its channel. */
  predicate Within(db: Db, id: Id, answer: seq<Post>) {
    && id in db.executions && db.executions[id].range in db.ranges
    && forall i | 0 <= i < |answer| ::
         && T.PartOk(answer[i].part) && answer[i].channel == db.ranges[db.executions[id].range].channel
         && db.executions[id].low < answer[i].part.id <= db.executions[id].high
  }

  /** The worker holds the execution under its lease. */
  predicate HeldBy(w: World, claim: Claimed, id: Id, token: Token, now: Time) {
    && claim.id == id && claim.token == token && id in w.base.db.executions
    && P.Under(w.base.db.executions[id], token, now) && claim.high == w.base.db.executions[id].high
    && claim.low == w.base.db.executions[id].low && w.base.db.executions[id].range in w.base.db.ranges
    && claim.channel == w.base.db.ranges[w.base.db.executions[id].range].channel
  }

  lemma TakeReady(w: World, worker: nat, id: Id, token: Token, now: Time) returns (v: World, claim: Claimed)
    requires Inv(w) && WorkerAt(w, worker).Resting? && token !in w.base.issued
    requires id in w.base.db.executions && P.Ready(w.base.db.executions[id], now)
    ensures Reaches(w, v) && Inv(v) && v.tables == w.tables && WorkerAt(v, worker) == Holding(claim)
    ensures HeldBy(v, claim, id, token, now) && v.base.db.ranges == w.base.db.ranges
    ensures var e, f := w.base.db.executions[id], v.base.db.executions[id];
      f.range == e.range && f.low == e.low && f.high == e.high
  {
    var step := R.Claim(id, token, now, now + 1);
    var base := P.After(w.base, step);
    P.ClaimedExactly(w.base, base, id, token, now, now + 1);
    claim := ClaimOf(w.base.db, id, token);
    v := w.(base := base, workers := w.workers[worker := Holding(claim)]);
    var mine := Claim(worker, id, token, now, now + 1);
    StepKeeps(w, mine, v);
    ReachesNext(w, mine, v);
  }

  lemma FetchWindow(w: World, worker: nat, claim: Claimed, id: Id, token: Token, now: Time, answer: seq<Post>,
      normal: seq<T.Logical>)
      returns (v: World)
    requires Inv(w) && WorkerAt(w, worker) == Holding(claim) && HeldBy(w, claim, id, token, now)
    requires Within(w.base.db, id, answer) && !T.Refused(answer) && T.NormalForm(answer, normal)
    ensures Reaches(w, v) && Inv(v) && v.tables == w.tables && v.base == w.base
    ensures WorkerAt(v, worker) == Ingesting(claim, (set p | p in answer), normal)
  {
    var posts := set p | p in answer;
    v := w.(workers := w.workers[worker := Ingesting(claim, posts, normal)],
            fetches := w.fetches + {FetchFor(claim, posts)});
    var fetch := Fetch(worker, answer, normal);
    StepKeeps(w, fetch, v);
    ReachesNext(w, fetch, v);
  }

  lemma {:induction false} IngestAll(w: World, worker: nat, claim: Claimed, posts: set<Post>, left: seq<T.Logical>)
      returns (v: World)
    requires Inv(w) && WorkerAt(w, worker) == Ingesting(claim, posts, left) && Fits(w.tables, left)
    ensures Reaches(w, v) && Inv(v) && v.base == w.base && WorkerAt(v, worker) == Ingesting(claim, posts, [])
    decreases |left|
  {
    if left == [] {
      v := w;
      assert Leads(w, [], [w]);
    } else {
      var next := w.(tables := I.Upsert(w.tables, left[0]).value,
                     workers := w.workers[worker := Ingesting(claim, posts, left[1..])]);
      StepKeeps(w, Ingest(worker), next);
      ReachesNext(w, Ingest(worker), next);
      v := IngestAll(next, worker, claim, posts, left[1..]);
      ReachesOn(w, next, v);
    }
  }

  lemma AdvanceToEnd(w: World, worker: nat, claim: Claimed, posts: set<Post>, id: Id, token: Token, now: Time)
      returns (v: World)
    requires Inv(w) && WorkerAt(w, worker) == Ingesting(claim, posts, []) && HeldBy(w, claim, id, token, now)
    ensures Reaches(w, v) && Inv(v) && v.tables == w.tables && WorkerAt(v, worker) == Marked(claim)
    ensures id in v.base.db.executions
    ensures v.base.db.executions[id] == w.base.db.executions[id].(watermark := w.base.db.executions[id].high)
  {
    var step := R.Advance(id, token, claim.high, now);
    var base := P.After(w.base, step);
    P.ExecutionInBounds(w.base, id);
    P.AdvancedExactly(w.base, base, id, token, claim.high, now);
    v := w.(base := base, workers := w.workers[worker := Marked(claim)]);
    StepKeeps(w, Advance(worker, now), v);
    ReachesNext(w, Advance(worker, now), v);
  }

  lemma CompleteAtEnd(w: World, worker: nat, claim: Claimed, id: Id, token: Token, now: Time) returns (v: World)
    requires Inv(w) && WorkerAt(w, worker) == Marked(claim) && claim.id == id && claim.token == token
    requires id in w.base.db.executions && P.Under(w.base.db.executions[id], token, now)
    requires w.base.db.executions[id].watermark == w.base.db.executions[id].high
    ensures Reaches(w, v) && v.tables == w.tables && WorkerAt(v, worker).Resting?
    ensures P.Done(v.base.db, w.base.db.executions[id].range, id, w.base.db.executions[id].high)
  {
    var step := R.Complete(id, token, now);
    var base := P.After(w.base, step);
    P.CompletedExactly(w.base, base, id, token, now);
    v := w.(base := base, workers := w.workers[worker := Resting]);
    ReachesNext(w, Complete(worker, now), v);
  }

  lemma AllStored(w: World, worker: nat, claim: Claimed, posts: set<Post>)
    requires Inv(w) && WorkerAt(w, worker) == Ingesting(claim, posts, [])
    ensures forall p | p in posts :: Stored(w.tables, p)
  {
    assert WorkerInv(w, w.workers[worker]);
  }

  /**
   * From every reachable state a resting worker can take a free execution, ingest the whole answer to its window and
   * complete it, provided the answer is valid and its messages fit the tables.
   */
  lemma PassCompletes(steps: seq<Step>, worlds: seq<World>, n: nat, worker: nat, id: Id, token: Token, now: Time,
      answer: seq<Post>, normal: seq<T.Logical>)
      returns (v: World)
    requires IsRun(steps, worlds) && n < |worlds| && WorkerAt(worlds[n], worker).Resting?
    requires token !in worlds[n].base.issued && Within(worlds[n].base.db, id, answer)
    requires P.Ready(worlds[n].base.db.executions[id], now)
    requires !T.Refused(answer) && T.NormalForm(answer, normal) && Fits(worlds[n].tables, normal)
    ensures Reaches(worlds[n], v) && WorkerAt(v, worker).Resting?
    ensures forall p | p in answer :: Stored(v.tables, p)
    ensures var e := worlds[n].base.db.executions[id]; P.Done(v.base.db, e.range, id, e.high)
  {
    RunKeeps(steps, worlds, n);
    var w := worlds[n];
    var taken, claim := TakeReady(w, worker, id, token, now);
    var fetched := FetchWindow(taken, worker, claim, id, token, now, answer, normal);
    var posts := set p | p in answer;
    var ingested := IngestAll(fetched, worker, claim, posts, normal);
    AllStored(ingested, worker, claim, posts);
    var advanced := AdvanceToEnd(ingested, worker, claim, posts, id, token, now);
    v := CompleteAtEnd(advanced, worker, claim, id, token, now);
    ReachesOn(w, taken, fetched);
    ReachesOn(w, fetched, ingested);
    ReachesOn(w, ingested, advanced);
    ReachesOn(w, advanced, v);
  }
}
