/** Concurrent routing evaluations: any number of callers, interleaved at find, load and persist, with crashes. */
module RoutingRuns {
  import opened Json
  import opened Ordering
  import opened RoutingPolicy
  import opened RoutingStore
  import Conditions

  datatype Store = Store(evaluations: seq<Evaluation>, intents: seq<Intent>)

  function FindEvaluation(evaluations: seq<Evaluation>, requestId: string): Option<Evaluation> {
    if evaluations == [] then None
    else
      var last := evaluations[|evaluations| - 1];
      if last.requestId == requestId then Some(last) else FindEvaluation(evaluations[..|evaluations| - 1], requestId)
  }

  function IntentRows(intents: seq<Intent>, evaluationId: string): seq<Intent> {
    if intents == [] then []
    else
      var init, last := intents[..|intents| - 1], intents[|intents| - 1];
      IntentRows(init, evaluationId) + if last.evaluationId == evaluationId then [last] else []
  }

  /** The database may list the intents of an evaluation in any order. */
  ghost predicate Listing(store: Store, requestId: string, listed: seq<Intent>) {
    var found := FindEvaluation(store.evaluations, requestId);
    found.Some? ==> multiset(listed) == multiset(IntentRows(store.intents, found.value.id))
  }

  /** `validate_routing_request_reuse`: a request ID stays bound to one message and policy. */
  function CheckReuse(e: Evaluation, messageId: string, policyId: string,
      result: Result<Execution>): Result<Execution> {
    if result.Ok? && (e.messageId != messageId || e.policyId != policyId) then
      Err("routing_request_id is already bound to a different message or routing policy version")
    else result
  }

  /** The transaction of `persist_evaluation`. */
  function Persist(tables: Tables, store: Store, d: Draft, listed: seq<Intent>): (Store, Result<Execution>) {
    if !PayloadValid(d) then (store, Err("publication intent does not match routing action"))
    else
      var found := FindEvaluation(store.evaluations, d.evaluation.requestId);
      if found.Some? then
        (store, CheckReuse(found.value, d.evaluation.messageId, d.evaluation.policyId,
          Reload(tables, found.value, listed)))
      else if Conflicts(store.intents, d.intents) then
        (store, Err("duplicate key value violates unique constraint"))
      else
        (Store(store.evaluations + [d.evaluation], store.intents + d.intents),
          Ok(Execution(d.evaluation, d.intents, false)))
  }

  /** The repository with its two tables. */
  class Repository {
    var evaluations: seq<Evaluation>
    var intents: seq<Intent>

    constructor ()
      ensures evaluations == [] && intents == []
    {
      evaluations, intents := [], [];
    }

    function State(): Store
      reads this
    {
      Store(evaluations, intents)
    }

    method PersistEvaluation(tables: Tables, d: Draft, listed: seq<Intent>) returns (result: Result<Execution>)
      modifies this
      ensures (State(), result) == Persist(tables, old(State()), d, listed)
    {
      if !PayloadValid(d) { return Err("publication intent does not match routing action"); }
      var found := FindEvaluation(evaluations, d.evaluation.requestId);
      if found.Some? {
        var existing := found.value;
        result := Reload(tables, existing, listed);
        if result.Err? { return; }
        if existing.messageId != d.evaluation.messageId || existing.policyId != d.evaluation.policyId {
          result := Err("routing_request_id is already bound to a different message or routing policy version");
        }
        return;
      }
      if Conflicts(intents, d.intents) { return Err("duplicate key value violates unique constraint"); }
      evaluations := evaluations + [d.evaluation];
      var before := intents;
      for n := 0 to |d.intents|
        invariant intents == before + d.intents[..n] && evaluations == old(evaluations) + [d.evaluation]
      {
        intents := intents + [d.intents[n]];
        assert d.intents[..n + 1] == d.intents[..n] + [d.intents[n]];
      }
      assert d.intents[..|d.intents|] == d.intents;
      result := Ok(Execution(d.evaluation, d.intents, false));
    }
  }

  // ---------------------------------------------------------------- the interleaving

  datatype Thread =
    | Looking(req: Request)
    | Missed(req: Request)
    | Prepared(req: Request, draft: Draft)
    | Returned(req: Request, result: Execution)
    | Failed(req: Request)

  /** `committed` remembers the drafts whose insertion succeeded; `issued` the identifiers handed out. */
  datatype World = World(store: Store, threads: map<nat, Thread>, issued: set<string>, committed: seq<Draft>)

  datatype Step =
    | Begin(t: nat, req: Request)
    | Find(t: nat, listed: seq<Intent>)
    | Load(t: nat, facts: Conditions.Facts, defaults: map<string, string>, ids: seq<string>, draft: Draft)
    | LoadFails(t: nat)
    | Write(t: nat, listed: seq<Intent>)
    | Crash(t: nat)

  ghost predicate Initial(w: World) {
    w == World(Store([], []), map[], {}, [])
  }

  ghost predicate Next(tables: Tables, w: World, step: Step, v: World) {
    match step
    case Begin(t, req) => t !in w.threads && v == w.(threads := w.threads[t := Looking(req)])
    case Find(t, listed) =>
      && t in w.threads && w.threads[t].Looking? && Listing(w.store, w.threads[t].req.id, listed)
      && v == w.(threads := w.threads[t := AfterFind(tables, w.store, w.threads[t].req, listed)])
    case Load(t, facts, defaults, ids, draft) =>
      && t in w.threads && w.threads[t].Missed?
      && (forall i | 0 <= i < |ids| :: ids[i] !in w.issued)
      && Prepares(tables, w.threads[t].req, facts, defaults, ids, draft)
      && v == w.(threads := w.threads[t := Prepared(w.threads[t].req, draft)],
                 issued := w.issued + set i | 0 <= i < |ids| :: ids[i])
    case LoadFails(t) =>
      t in w.threads && w.threads[t].Missed? && v == w.(threads := w.threads[t := Failed(w.threads[t].req)])
    case Write(t, listed) =>
      && t in w.threads && w.threads[t].Prepared? && Listing(w.store, w.threads[t].req.id, listed)
      && var (store, result) := Persist(tables, w.store, w.threads[t].draft, listed);
      v == World(
        store,
        w.threads[t := if result.Ok? then Returned(w.threads[t].req, result.value) else Failed(w.threads[t].req)],
        w.issued,
        if |store.evaluations| > |w.store.evaluations| then w.committed + [w.threads[t].draft] else w.committed)
    case Crash(t) => v == w.(threads := w.threads - {t})
  }

  function AfterFind(tables: Tables, store: Store, req: Request, listed: seq<Intent>): Thread {
    var found := FindEvaluation(store.evaluations, req.id);
    if found.None? then Missed(req)
    else
      var result := CheckReuse(found.value, req.messageId, req.policyId, Reload(tables, found.value, listed));
      if result.Ok? then Returned(req, result.value) else Failed(req)
  }

  // ---------------------------------------------------------------- invariant

  ghost predicate Sound(tables: Tables, d: Draft) {
    && PayloadValid(d) && ActionsOnce(d.intents)
    && StrictlyAscending(IntentOrder(tables, d.evaluation.outcomes), d.intents)
    && forall i | 0 <= i < |d.intents| :: FindAction(tables.actions, d.intents[i].actionId).Some?
  }

  ghost predicate StoreInv(tables: Tables, w: World) {
    && |w.store.evaluations| == |w.committed|
    && (forall i | 0 <= i < |w.committed| ::
        && w.store.evaluations[i] == w.committed[i].evaluation
        && IntentRows(w.store.intents, w.committed[i].evaluation.id) == w.committed[i].intents
        && Sound(tables, w.committed[i])
        && w.committed[i].evaluation.id in w.issued)
    && (forall i, j | 0 <= i < j < |w.committed| ::
        w.committed[i].evaluation.requestId != w.committed[j].evaluation.requestId)
  }

  /** A thread's own draft is unused so far; what a thread returned is what was committed. */
  ghost predicate ThreadInv(tables: Tables, w: World, thread: Thread) {
    match thread
    case Prepared(req, d) =>
      && Sound(tables, d) && d.evaluation.requestId == req.id
      && d.evaluation.messageId == req.messageId && d.evaluation.policyId == req.policyId
      && d.evaluation.id in w.issued
      && IntentRows(w.store.intents, d.evaluation.id) == []
      && (forall i | 0 <= i < |w.committed| :: w.committed[i].evaluation.id != d.evaluation.id)
    case Returned(req, x) => exists i :: 0 <= i < |w.committed| && Answers(req, x, w.committed[i])
    case _ => true
  }

  ghost predicate Answers(req: Request, x: Execution, d: Draft) {
    && x.evaluation == d.evaluation && x.intents == d.intents
    && d.evaluation.requestId == req.id && d.evaluation.messageId == req.messageId
      && d.evaluation.policyId == req.policyId
  }

  ghost predicate Inv(tables: Tables, w: World) {
    && StoreInv(tables, w)
    && (forall t | t in w.threads :: ThreadInv(tables, w, w.threads[t]))
    && (forall t, u | t in w.threads && u in w.threads && t != u && w.threads[t].Prepared? && w.threads[u].Prepared? ::
        w.threads[t].draft.evaluation.id != w.threads[u].draft.evaluation.id)
    && (forall i | 0 <= i < |w.store.intents| :: w.store.intents[i].evaluationId in w.issued)
  }

  lemma {:induction false} NoIntentRows(intents: seq<Intent>, id: string)
    requires forall i | 0 <= i < |intents| :: intents[i].evaluationId != id
    ensures IntentRows(intents, id) == []
  {
    if intents != [] { NoIntentRows(intents[..|intents| - 1], id); }
  }

  lemma {:induction false} NoRowsNoIntent(intents: seq<Intent>, id: string)
    requires IntentRows(intents, id) == []
    ensures forall i | 0 <= i < |intents| :: intents[i].evaluationId != id
  {
    if intents != [] { NoRowsNoIntent(intents[..|intents| - 1], id); }
  }

  /** The intents of a prepared draft never meet a unique constraint. */
  lemma DraftFits(tables: Tables, w: World, t: nat)
    requires Inv(tables, w) && t in w.threads && w.threads[t].Prepared?
    ensures !Conflicts(w.store.intents, w.threads[t].draft.intents)
  {
    var d := w.threads[t].draft;
    assert ThreadInv(tables, w, w.threads[t]);
    NoRowsNoIntent(w.store.intents, d.evaluation.id);
    FreshIntentsFit(w.store.intents, d.intents, d.evaluation.id);
  }

  lemma {:induction false} AllIntentRows(intents: seq<Intent>, id: string)
    requires forall i | 0 <= i < |intents| :: intents[i].evaluationId == id
    ensures IntentRows(intents, id) == intents
  {
    if intents != [] {
      AllIntentRows(intents[..|intents| - 1], id);
      assert intents == intents[..|intents| - 1] + [intents[|intents| - 1]];
    }
  }

  lemma {:induction false} IntentRowsAppend(intents: seq<Intent>, more: seq<Intent>, id: string)
    ensures IntentRows(intents + more, id) == IntentRows(intents, id) + IntentRows(more, id)
  {
    if more == [] {
      assert intents + more == intents;
    } else {
      var whole := intents + more;
      assert whole[..|whole| - 1] == intents + more[..|more| - 1];
      IntentRowsAppend(intents, more[..|more| - 1], id);
    }
  }

  lemma {:induction false} FindCommitted(evaluations: seq<Evaluation>, requestId: string)
    ensures var found := FindEvaluation(evaluations, requestId);
      if found.Some?
        then exists i :: 0 <= i < |evaluations| && evaluations[i] == found.value && found.value.requestId == requestId
      else forall i | 0 <= i < |evaluations| :: evaluations[i].requestId != requestId
  {
    if evaluations != [] {
      var init := evaluations[..|evaluations| - 1];
      FindCommitted(init, requestId);
      assert forall i | 0 <= i < |init| :: init[i] == evaluations[i];
    }
  }

  ghost predicate Restores(tables: Tables, w: World, requestId: string, listed: seq<Intent>, d: Draft) {
    && FindEvaluation(w.store.evaluations, requestId) == Some(d.evaluation)
    && d.evaluation.requestId == requestId
    && Reload(tables, d.evaluation, listed) == Ok(Execution(d.evaluation, d.intents, true))
  }

  /** A reload of a committed evaluation returns the committed intents in their original order. */
  lemma ReloadCommitted(tables: Tables, w: World, requestId: string, listed: seq<Intent>) returns (i: nat)
    requires StoreInv(tables, w) && Listing(w.store, requestId, listed)
    requires FindEvaluation(w.store.evaluations, requestId).Some?
    ensures i < |w.committed| && Restores(tables, w, requestId, listed, w.committed[i])
  {
    FindCommitted(w.store.evaluations, requestId);
    i :| 0 <= i < |w.store.evaluations|
      && w.store.evaluations[i] == FindEvaluation(w.store.evaluations, requestId).value;
    assert w.store.evaluations[i] == w.committed[i].evaluation;
    ReloadRestores(tables, w.committed[i].evaluation, w.committed[i].intents, listed);
  }

  /** A thread that holds no draft may be replaced by another that respects the store. */
  lemma ThreadReplaced(tables: Tables, w: World, t: nat, thread: Thread)
    requires Inv(tables, w) && ThreadInv(tables, w, thread) && !thread.Prepared?
    ensures Inv(tables, w.(threads := w.threads[t := thread]))
  {
    var v := w.(threads := w.threads[t := thread]);
    assert StoreInv(tables, v);
    forall u | u in v.threads ensures ThreadInv(tables, v, v.threads[u]) {
      var now := if u == t then thread else w.threads[u];
      assert ThreadInv(tables, w, now);
    }
  }

  lemma FoundThreadSound(tables: Tables, w: World, t: nat, listed: seq<Intent>, v: World)
    requires Inv(tables, w) && Next(tables, w, Find(t, listed), v)
    ensures
      var thread := AfterFind(tables, w.store, w.threads[t].req, listed);
      ThreadInv(tables, w, thread) && !thread.Prepared?
  {
    var req := w.threads[t].req;
    var thread := AfterFind(tables, w.store, req, listed);
    if FindEvaluation(w.store.evaluations, req.id).Some? {
      var i := ReloadCommitted(tables, w, req.id, listed);
      assert thread.Returned? ==> Answers(req, thread.result, w.committed[i]);
    }
  }

  lemma FindKeeps(tables: Tables, w: World, t: nat, listed: seq<Intent>, v: World)
    requires Inv(tables, w) && Next(tables, w, Find(t, listed), v)
    ensures Inv(tables, v)
  {
    FoundThreadSound(tables, w, t, listed, v);
    ThreadReplaced(tables, w, t, AfterFind(tables, w.store, w.threads[t].req, listed));
  }

  lemma LoadKeeps(tables: Tables, w: World, t: nat, facts: Conditions.Facts, defaults: map<string, string>,
      ids: seq<string>, draft: Draft, v: World)
    requires tables.Valid() && Inv(tables, w) && Next(tables, w, Load(t, facts, defaults, ids, draft), v)
    ensures Inv(tables, v)
  {
    var req := w.threads[t].req;
    PreparedPayloadValid(tables, req, facts, defaults, ids, draft);
    PreparedIntentsAscend(tables, req, facts, defaults, ids, draft);
    assert draft.evaluation.id == ids[0] && ids[0] in v.issued && ids[0] !in w.issued;
    NoIntentRows(w.store.intents, ids[0]);
    forall u | u in v.threads ensures ThreadInv(tables, v, v.threads[u]) {
      if u != t { assert ThreadInv(tables, w, w.threads[u]); }
    }
  }

  function Committed(w: World, t: nat): World
    requires t in w.threads && w.threads[t].Prepared?
  {
    var d := w.threads[t].draft;
    World(
      Store(w.store.evaluations + [d.evaluation], w.store.intents + d.intents),
      w.threads[t := Returned(w.threads[t].req, Execution(d.evaluation, d.intents, false))],
      w.issued, w.committed + [d])
  }

  lemma CommitKeepsRows(tables: Tables, w: World, t: nat, i: nat)
    requires Inv(tables, w) && t in w.threads && w.threads[t].Prepared? && i <= |w.committed|
    ensures
      var v := Committed(w, t);
      IntentRows(v.store.intents, v.committed[i].evaluation.id) == v.committed[i].intents
  {
    var d := w.threads[t].draft;
    assert ThreadInv(tables, w, w.threads[t]);
    assert forall k | 0 <= k < |d.intents| :: d.intents[k].evaluationId == d.evaluation.id;
    if i == |w.committed| {
      AllIntentRows(d.intents, d.evaluation.id);
      IntentRowsAppend(w.store.intents, d.intents, d.evaluation.id);
    } else {
      NoIntentRows(d.intents, w.committed[i].evaluation.id);
      IntentRowsAppend(w.store.intents, d.intents, w.committed[i].evaluation.id);
    }
  }

  lemma CommitKeepsStore(tables: Tables, w: World, t: nat)
    requires Inv(tables, w) && t in w.threads && w.threads[t].Prepared?
    requires FindEvaluation(w.store.evaluations, w.threads[t].req.id).None?
    ensures StoreInv(tables, Committed(w, t))
  {
    assert ThreadInv(tables, w, w.threads[t]);
    FindCommitted(w.store.evaluations, w.threads[t].req.id);
    var v := Committed(w, t);
    forall i | 0 <= i < |v.committed|
      ensures IntentRows(v.store.intents, v.committed[i].evaluation.id) == v.committed[i].intents
    {
      CommitKeepsRows(tables, w, t, i);
    }
    assert forall i | 0 <= i < |w.committed| :: w.store.evaluations[i] == w.committed[i].evaluation;
  }

  lemma CommitKeeps(tables: Tables, w: World, t: nat)
    requires Inv(tables, w) && t in w.threads && w.threads[t].Prepared?
    requires FindEvaluation(w.store.evaluations, w.threads[t].req.id).None?
    ensures Inv(tables, Committed(w, t))
  {
    var v, d := Committed(w, t), w.threads[t].draft;
    CommitKeepsStore(tables, w, t);
    assert ThreadInv(tables, w, w.threads[t]);
    forall i | 0 <= i < |v.store.intents| ensures v.store.intents[i].evaluationId in v.issued {
      if i >= |w.store.intents| { assert v.store.intents[i] == d.intents[i - |w.store.intents|]; }
    }
    forall u | u in v.threads ensures ThreadInv(tables, v, v.threads[u]) {
      CommitKeepsThread(tables, w, t, u);
    }
  }

  lemma CommitKeepsThread(tables: Tables, w: World, t: nat, u: nat)
    requires Inv(tables, w) && t in w.threads && w.threads[t].Prepared? && u in w.threads
    ensures ThreadInv(tables, Committed(w, t), Committed(w, t).threads[u])
  {
    var v, d := Committed(w, t), w.threads[t].draft;
    assert ThreadInv(tables, w, w.threads[t]);
    if u == t {
      assert Answers(w.threads[t].req, Execution(d.evaluation, d.intents, false), v.committed[|w.committed|]);
    } else {
      var thread := w.threads[u];
      assert ThreadInv(tables, w, thread);
      if thread.Prepared? {
        NoIntentRows(d.intents, thread.draft.evaluation.id);
        IntentRowsAppend(w.store.intents, d.intents, thread.draft.evaluation.id);
      } else if thread.Returned? {
        var i :| 0 <= i < |w.committed| && Answers(thread.req, thread.result, w.committed[i]);
        assert v.committed[i] == w.committed[i];
      }
    }
  }

  lemma WriteKeeps(tables: Tables, w: World, t: nat, listed: seq<Intent>, v: World)
    requires Inv(tables, w) && Next(tables, w, Write(t, listed), v)
    ensures Inv(tables, v)
  {
    var req, d := w.threads[t].req, w.threads[t].draft;
    assert ThreadInv(tables, w, w.threads[t]);
    if FindEvaluation(w.store.evaluations, req.id).None? {
      DraftFits(tables, w, t);
      assert v == Committed(w, t);
      CommitKeeps(tables, w, t);
    } else {
      var i := ReloadCommitted(tables, w, req.id, listed);
      var thread := v.threads[t];
      assert thread.Returned? ==> Answers(req, thread.result, w.committed[i]);
      assert v == w.(threads := w.threads[t := thread]);
      ThreadReplaced(tables, w, t, thread);
    }
  }

  lemma CrashKeeps(tables: Tables, w: World, t: nat)
    requires Inv(tables, w)
    ensures Inv(tables, w.(threads := w.threads - {t}))
  {
    var v := w.(threads := w.threads - {t});
    forall u | u in v.threads ensures ThreadInv(tables, v, v.threads[u]) {
      assert ThreadInv(tables, w, w.threads[u]);
    }
  }

  lemma StepKeeps(tables: Tables, w: World, step: Step, v: World)
    requires tables.Valid() && Inv(tables, w) && Next(tables, w, step, v)
    ensures Inv(tables, v)
  {
    match step
    case Begin(t, req) => ThreadReplaced(tables, w, t, Looking(req));
    case Find(t, listed) => FindKeeps(tables, w, t, listed, v);
    case Load(t, facts, defaults, ids, draft) => LoadKeeps(tables, w, t, facts, defaults, ids, draft, v);
    case LoadFails(t) => ThreadReplaced(tables, w, t, Failed(w.threads[t].req));
    case Write(t, listed) => WriteKeeps(tables, w, t, listed, v);
    case Crash(t) => CrashKeeps(tables, w, t);
  }

  ghost predicate IsRun(tables: Tables, steps: seq<Step>, worlds: seq<World>) {
    && |worlds| == |steps| + 1 && Initial(worlds[0])
    && forall i | 0 <= i < |steps| :: Next(tables, worlds[i], steps[i], worlds[i + 1])
  }

  lemma {:induction false} RunKeeps(tables: Tables, steps: seq<Step>, worlds: seq<World>, n: nat)
    requires tables.Valid() && IsRun(tables, steps, worlds) && n < |worlds|
    ensures Inv(tables, worlds[n])
  {
    if n > 0 {
      RunKeeps(tables, steps, worlds, n - 1);
      StepKeeps(tables, worlds[n - 1], steps[n - 1], worlds[n]);
    }
  }

  /** In any interleaving, an insertion never meets the unique constraints on intents. */
  lemma WritesNeverConflict(tables: Tables, steps: seq<Step>, worlds: seq<World>, n: nat, t: nat)
    requires tables.Valid() && IsRun(tables, steps, worlds) && n < |worlds|
    requires t in worlds[n].threads && worlds[n].threads[t].Prepared?
    ensures !Conflicts(worlds[n].store.intents, worlds[n].threads[t].draft.intents)
  {
    RunKeeps(tables, steps, worlds, n);
    DraftFits(tables, worlds[n], t);
  }

  /**
   * In any interleaving, all callers of a request that returned hold the same evaluation and the same intents in the
   * same order; that evaluation is the only one stored for the request and its rows are those intents.
   */
  lemma OneEvaluationPerRequest(tables: Tables, steps: seq<Step>, worlds: seq<World>, n: nat, t: nat, u: nat)
    requires tables.Valid() && IsRun(tables, steps, worlds) && n < |worlds|
    requires var threads := worlds[n].threads;
      t in threads && u in threads && threads[t].Returned? && threads[u].Returned?
        && threads[t].req.id == threads[u].req.id
    ensures var x, y := worlds[n].threads[t].result, worlds[n].threads[u].result;
      && x.evaluation == y.evaluation && x.intents == y.intents
      && x.evaluation.requestId == worlds[n].threads[t].req.id
      && x.evaluation in worlds[n].store.evaluations
      && (forall e | e in worlds[n].store.evaluations && e.requestId == x.evaluation.requestId :: e == x.evaluation)
      && IntentRows(worlds[n].store.intents, x.evaluation.id) == x.intents
  {
    var w := worlds[n];
    RunKeeps(tables, steps, worlds, n);
    assert ThreadInv(tables, w, w.threads[t]) && ThreadInv(tables, w, w.threads[u]);
    var i :| 0 <= i < |w.committed| && Answers(w.threads[t].req, w.threads[t].result, w.committed[i]);
    var j :| 0 <= j < |w.committed| && Answers(w.threads[u].req, w.threads[u].result, w.committed[j]);
    assert i == j;
    assert w.store.evaluations[i] == w.committed[i].evaluation;
    forall e | e in w.store.evaluations && e.requestId == w.committed[i].evaluation.requestId
      ensures e == w.committed[i].evaluation
    {
      var k :| 0 <= k < |w.store.evaluations| && w.store.evaluations[k] == e;
      assert w.store.evaluations[k] == w.committed[k].evaluation;
    }
  }
}
