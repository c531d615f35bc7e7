/** What routing gets done: the policy it loads, what each step answers, and that every caller can be answered. */
module RoutingProgress {
  import opened Json
  import opened Ordering
  import opened RoutingPolicy
  import opened RoutingStore
  import opened RoutingRuns
  import Conditions

  // ---------------------------------------------------------------- the policy as loaded

  predicate ActionTells(row: ActionRow, a: Action) {
    && a.id == row.id && a.destination == row.destination && a.mode == row.mode && a.template == row.template
    && a.identity == row.identity && a.ruleId == Some(row.ruleId)
  }

  /** The rule has the columns of its row, and the actions stored for it by rising output order. */
  ghost predicate RuleTells(tables: Tables, row: RuleRow, rule: Rule) {
    && rule.id == row.id && rule.priority == row.priority && rule.condition == row.condition
    && rule.stopOnMatch == row.stopOnMatch && rule.enabled == row.enabled
    && exists rows: seq<ActionRow> ::
         && |rows| == |rule.actions| && (forall i | 0 <= i < |rows| :: ActionTells(rows[i], rule.actions[i]))
         && (forall a :: a in rows <==> a in tables.actions && a.ruleId == row.id)
         && forall i, j | 0 <= i < j < |rows| :: rows[i].outputOrder < rows[j].outputOrder
  }

  lemma RowsOfRule(tables: Tables, row: RuleRow) returns (rows: seq<ActionRow>)
    requires tables.Valid()
    ensures rows == Sort(ActionBefore, ActionsOf(tables.actions, row.id))
    ensures forall a :: a in rows <==> a in tables.actions && a.ruleId == row.id
    ensures forall i, j | 0 <= i < j < |rows| :: rows[i].outputOrder < rows[j].outputOrder
  {
    var listed := ActionsOf(tables.actions, row.id);
    rows := Sort(ActionBefore, listed);
    ActionsOfContents(tables.actions, row.id);
    ActionOrder();
    SortStrict(ActionBefore, listed);
    forall i, j | 0 <= i < j < |rows| ensures rows[i].outputOrder < rows[j].outputOrder {
      assert rows[i] in rows && rows[j] in rows;
      OrdersDiffer(tables, rows[i], rows[j]);
    }
  }

  lemma BuiltRuleTells(tables: Tables, row: RuleRow)
    requires tables.Valid()
    ensures RuleTells(tables, row, ToRule(tables, row))
  {
    var rows := RowsOfRule(tables, row);
    var rule := ToRule(tables, row);
    forall i | 0 <= i < |rows| ensures ActionTells(rows[i], rule.actions[i]) {}
  }

  lemma PolicyTells(tables: Tables, version: string)
    requires tables.Valid() && version in tables.policies
    ensures var policy, rows := BuildPolicy(tables, version), tables.policies[version];
      && policy.versionId == version && |policy.rules| == |rows|
      && forall i | 0 <= i < |rows| :: RuleTells(tables, rows[i], policy.rules[i])
  {
    var rows := tables.policies[version];
    forall i | 0 <= i < |rows| ensures RuleTells(tables, rows[i], BuildPolicy(tables, version).rules[i]) {
      BuiltRuleTells(tables, rows[i]);
    }
  }

  // ---------------------------------------------------------------- what a caller gets

  /** The intents are the stored rows of the evaluation, each as often as it is stored. */
  ghost predicate RowsOf(stored: seq<Intent>, id: string, intents: seq<Intent>) {
    forall x :: multiset(intents)[x] == if x.evaluationId == id then multiset(stored)[x] else 0
  }

  lemma {:induction false} IntentRowsAre(stored: seq<Intent>, id: string)
    ensures RowsOf(stored, id, IntentRows(stored, id))
  {
    if stored != [] {
      var init, last := stored[..|stored| - 1], stored[|stored| - 1];
      IntentRowsAre(init, id);
      assert stored == init + [last];
    }
  }

  predicate SameBinding(e: Evaluation, req: Request) { e.messageId == req.messageId && e.policyId == req.policyId }

  /** The caller gets the evaluation stored for its request, or fails if that was for another message or policy. */
  ghost predicate AnsweredFrom(store: Store, req: Request, thread: Thread) {
    exists e, intents ::
      && e in store.evaluations && e.requestId == req.id && RowsOf(store.intents, e.id, intents)
      && thread == if SameBinding(e, req) then Returned(req, Execution(e, intents, true)) else Failed(req)
  }

  ghost predicate Known(store: Store, requestId: string) {
    exists e :: e in store.evaluations && e.requestId == requestId
  }

  lemma KnownExactly(store: Store, requestId: string)
    ensures Known(store, requestId) <==> FindEvaluation(store.evaluations, requestId).Some?
  {
    FindCommitted(store.evaluations, requestId);
    if e :| e in store.evaluations && e.requestId == requestId {
      var i :| 0 <= i < |store.evaluations| && store.evaluations[i] == e;
    }
  }

  lemma CommittedAnswers(tables: Tables, w: World, req: Request, listed: seq<Intent>, thread: Thread)
    requires Inv(tables, w) && Listing(w.store, req.id, listed) && Known(w.store, req.id)
    requires thread == AfterFind(tables, w.store, req, listed)
    ensures AnsweredFrom(w.store, req, thread)
  {
    KnownExactly(w.store, req.id);
    var i := ReloadCommitted(tables, w, req.id, listed);
    var d := w.committed[i];
    IntentRowsAre(w.store.intents, d.evaluation.id);
    assert w.store.evaluations[i] == d.evaluation;
    assert RowsOf(w.store.intents, d.evaluation.id, d.intents);
  }

  /** Looking a request up answers it from the store, or goes on if there is nothing. */
  lemma FoundExactly(tables: Tables, w: World, v: World, t: nat, listed: seq<Intent>)
    requires Inv(tables, w) && Next(tables, w, Find(t, listed), v)
    ensures v.store == w.store && t in v.threads && v.threads == w.threads[t := v.threads[t]]
    ensures var req := w.threads[t].req;
      if Known(w.store, req.id) then AnsweredFrom(w.store, req, v.threads[t]) else v.threads[t] == Missed(req)
  {
    var req := w.threads[t].req;
    KnownExactly(w.store, req.id);
    if Known(w.store, req.id) { CommittedAnswers(tables, w, req, listed, v.threads[t]); }
  }

  lemma PersistFresh(tables: Tables, store: Store, d: Draft, listed: seq<Intent>)
    requires PayloadValid(d) && !Known(store, d.evaluation.requestId) && !Conflicts(store.intents, d.intents)
    ensures Persist(tables, store, d, listed)
      == (Store(store.evaluations + [d.evaluation], store.intents + d.intents),
          Ok(Execution(d.evaluation, d.intents, false)))
  {
    KnownExactly(store, d.evaluation.requestId);
  }

  function AfterPersist(req: Request, result: Result<Execution>): Thread {
    if result.Ok? then Returned(req, result.value) else Failed(req)
  }

  lemma PersistKnown(tables: Tables, store: Store, d: Draft, req: Request, listed: seq<Intent>)
    requires PayloadValid(d) && Known(store, req.id)
    requires d.evaluation.requestId == req.id && SameBinding(d.evaluation, req)
    ensures Persist(tables, store, d, listed).0 == store
    ensures AfterPersist(req, Persist(tables, store, d, listed).1) == AfterFind(tables, store, req, listed)
  {
    KnownExactly(store, req.id);
  }

  /** Writing a draft stores it, or answers from the store if another caller was first. */
  lemma WrittenExactly(tables: Tables, w: World, v: World, t: nat, listed: seq<Intent>)
    requires Inv(tables, w) && Next(tables, w, Write(t, listed), v)
    ensures t in v.threads && v.threads == w.threads[t := v.threads[t]]
    ensures var req, d := w.threads[t].req, w.threads[t].draft;
      if Known(w.store, req.id) then v.store == w.store && AnsweredFrom(w.store, req, v.threads[t])
      else
        && v.store == Store(w.store.evaluations + [d.evaluation], w.store.intents + d.intents)
        && v.threads[t] == Returned(req, Execution(d.evaluation, d.intents, false))
  {
    var req, d := w.threads[t].req, w.threads[t].draft;
    assert ThreadInv(tables, w, w.threads[t]);
    assert v.threads[t] == AfterPersist(req, Persist(tables, w.store, d, listed).1);
    if Known(w.store, req.id) {
      PersistKnown(tables, w.store, d, req, listed);
      CommittedAnswers(tables, w, req, listed, v.threads[t]);
    } else {
      DraftFits(tables, w, t);
      PersistFresh(tables, w.store, d, listed);
    }
  }

  // ---------------------------------------------------------------- every request can be answered

  lemma SomeDecision(ordered: seq<Rule>, test: Test) returns (d: Decision)
    ensures Decides(ordered, test, d)
  {
    var n := 0;
    while n < |ordered| && !Stops(ordered[n], test)
      invariant n <= |ordered| && forall i | 0 <= i < n :: !Stops(ordered[i], test)
    {
      n := n + 1;
    }
    var stopped := n < |ordered|;
    if stopped { n := n + 1; }
    d := Decision(
      seq(n, i requires 0 <= i < n => OutcomeOf(ordered[i], test)), MatchedActions(ordered[..n], test),
      if stopped then Some(ordered[n - 1].id) else None);
  }

  /** The draft of a decision whose actions can all be published. */
  lemma UsableIsPrepared(tables: Tables, req: Request, facts: Conditions.Facts, defaults: map<string, string>,
      ids: seq<string>, d: Decision) returns (draft: Draft)
    requires req.policyId in tables.policies && |ids| == |d.actions| + 1
    requires Decides(Sort(RuleBefore, BuildPolicy(tables, req.policyId).rules), TestOf(facts), d)
    requires forall i | 0 <= i < |d.actions| :: Usable(d.actions[i], defaults)
    ensures Prepares(tables, req, facts, defaults, ids, draft) && draft.decision == d
  {
    var e := Evaluation(ids[0], req.id, req.messageId, req.policyId, facts, d.outcomes, d.stoppedAt);
    var intents := seq(|d.actions|, i requires 0 <= i < |d.actions| =>
      IntentOf(e, d.actions[i], PublishIdentity(d.actions[i], defaults).value, ids[1..][i]));
    draft := Draft(e, d, intents);
    assert IntentsFor(e, d.actions, defaults, ids[1..], intents);
  }

  lemma PreparedIsUsable(tables: Tables, req: Request, facts: Conditions.Facts, defaults: map<string, string>,
      ids: seq<string>, draft: Draft, i: nat)
    requires Prepares(tables, req, facts, defaults, ids, draft) && i < |draft.decision.actions|
    ensures Usable(draft.decision.actions[i], defaults)
  {
    assert IsIntent(draft.evaluation, draft.decision.actions[i], defaults, ids[1..][i], draft.intents[i]);
  }

  /** A draft can be prepared exactly when each action decided on has a channel identity to publish under. */
  lemma PreparesExactly(tables: Tables, req: Request, facts: Conditions.Facts, defaults: map<string, string>,
      ids: seq<string>, d: Decision)
    requires tables.Valid() && req.policyId in tables.policies && |ids| == |d.actions| + 1
    requires Decides(Sort(RuleBefore, BuildPolicy(tables, req.policyId).rules), TestOf(facts), d)
    ensures (exists draft :: Prepares(tables, req, facts, defaults, ids, draft) && draft.decision == d) <==>
      forall i | 0 <= i < |d.actions| :: Publishable(d.actions[i], defaults)
  {
    DecisionInOrder(tables, req.policyId, TestOf(facts), d);
    forall i | 0 <= i < |d.actions|
      ensures Usable(d.actions[i], defaults) <==> Publishable(d.actions[i], defaults)
    {
      UsableExactly(d.actions[i], defaults);
    }
    if forall i | 0 <= i < |d.actions| :: Usable(d.actions[i], defaults) {
      var draft := UsableIsPrepared(tables, req, facts, defaults, ids, d);
    } else if draft :| Prepares(tables, req, facts, defaults, ids, draft) && draft.decision == d {
      var i :| 0 <= i < |d.actions| && !Usable(d.actions[i], defaults);
      PreparedIsUsable(tables, req, facts, defaults, ids, draft, i);
    }
  }

  /** What is prepared follows the policy's rules on the facts, and holds an intent for each action decided on. */
  lemma PreparedMeans(tables: Tables, req: Request, facts: Conditions.Facts, defaults: map<string, string>,
      ids: seq<string>, draft: Draft)
    requires tables.Valid() && Prepares(tables, req, facts, defaults, ids, draft)
    ensures var rules := BuildPolicy(tables, req.policyId).rules;
      Follows(rules, TestOf(facts), draft.decision) && Judges(rules, facts, draft.decision.outcomes)
    ensures draft.evaluation.facts == facts && draft.evaluation.outcomes == draft.decision.outcomes
    ensures draft.evaluation.requestId == req.id && SameBinding(draft.evaluation, req)
    ensures |draft.intents| == |draft.decision.actions|
    ensures forall i | 0 <= i < |draft.intents| ::
      && MadeFor(draft.evaluation, draft.decision.actions[i], draft.intents[i])
      && Identifies(draft.decision.actions[i], defaults, draft.intents[i].identity)
  {
    var rules := BuildPolicy(tables, req.policyId).rules;
    PolicyRules(tables, req.policyId);
    DecisionFollows(rules, TestOf(facts), draft.decision);
    FollowsJudges(rules, facts, draft.decision);
    forall i | 0 <= i < |draft.intents|
      ensures MadeFor(draft.evaluation, draft.decision.actions[i], draft.intents[i])
      ensures Identifies(draft.decision.actions[i], defaults, draft.intents[i].identity)
    {
      PreparedIntentMeans(tables, req, facts, defaults, ids, draft, i);
    }
  }

  lemma PreparedIntentMeans(tables: Tables, req: Request, facts: Conditions.Facts, defaults: map<string, string>,
      ids: seq<string>, draft: Draft, i: nat)
    requires Prepares(tables, req, facts, defaults, ids, draft) && i < |draft.intents|
    ensures MadeFor(draft.evaluation, draft.decision.actions[i], draft.intents[i])
    ensures Identifies(draft.decision.actions[i], defaults, draft.intents[i].identity)
  {
    assert IsIntent(draft.evaluation, draft.decision.actions[i], defaults, ids[1..][i], draft.intents[i]);
    UsableExactly(draft.decision.actions[i], defaults);
  }

  /** The steps lead from the first world to the last. */
  ghost predicate Leads(tables: Tables, steps: seq<Step>, worlds: seq<World>) {
    |worlds| == |steps| + 1 && forall i | 0 <= i < |steps| :: Next(tables, worlds[i], steps[i], worlds[i + 1])
  }

  /** A caller starts and looks its request up. */
  lemma LookUp(tables: Tables, w: World, t: nat, req: Request) returns (steps: seq<Step>, worlds: seq<World>)
    requires tables.Valid() && Inv(tables, w) && t !in w.threads
    ensures Leads(tables, steps, worlds) && |steps| == 2 && worlds[0] == w && Inv(tables, worlds[2])
    ensures worlds[2].store == w.store && worlds[2].issued == w.issued && t in worlds[2].threads
    ensures if Known(w.store, req.id) then AnsweredFrom(w.store, req, worlds[2].threads[t])
      else worlds[2].threads[t] == Missed(req)
  {
    var found := FindEvaluation(w.store.evaluations, req.id);
    var listed := if found.Some? then IntentRows(w.store.intents, found.value.id) else [];
    var begun := w.(threads := w.threads[t := Looking(req)]);
    var next := begun.(threads := begun.threads[t := AfterFind(tables, w.store, req, listed)]);
    StepKeeps(tables, w, Begin(t, req), begun);
    FoundExactly(tables, begun, next, t, listed);
    StepKeeps(tables, begun, Find(t, listed), next);
    steps, worlds := [Begin(t, req), Find(t, listed)], [w, begun, next];
  }

  /** A caller that found nothing prepares its draft and writes it. */
  lemma LoadAndWrite(tables: Tables, w: World, t: nat, facts: Conditions.Facts, defaults: map<string, string>,
      ids: seq<string>, draft: Draft) returns (steps: seq<Step>, worlds: seq<World>)
    requires tables.Valid() && Inv(tables, w) && t in w.threads && w.threads[t].Missed?
    requires Prepares(tables, w.threads[t].req, facts, defaults, ids, draft) && !Known(w.store, w.threads[t].req.id)
    requires forall i | 0 <= i < |ids| :: ids[i] !in w.issued
    ensures Leads(tables, steps, worlds) && |steps| == 2 && worlds[0] == w && t in worlds[2].threads
    ensures worlds[2].threads[t] == Returned(w.threads[t].req, Execution(draft.evaluation, draft.intents, false))
  {
    var load := Load(t, facts, defaults, ids, draft);
    var loaded := w.(threads := w.threads[t := Prepared(w.threads[t].req, draft)],
                     issued := w.issued + set i | 0 <= i < |ids| :: ids[i]);
    StepKeeps(tables, w, load, loaded);
    var done := AfterWrite(tables, loaded, t);
    WrittenExactly(tables, loaded, done, t, []);
    steps, worlds := [load, Write(t, [])], [w, loaded, done];
  }

  ghost function AfterWrite(tables: Tables, w: World, t: nat): (v: World)
    requires t in w.threads && w.threads[t].Prepared? && !Known(w.store, w.threads[t].req.id)
    ensures Next(tables, w, Write(t, []), v)
  {
    KnownExactly(w.store, w.threads[t].req.id);
    var (store, result) := Persist(tables, w.store, w.threads[t].draft, []);
    World(store,
      w.threads[t := if result.Ok? then Returned(w.threads[t].req, result.value) else Failed(w.threads[t].req)],
      w.issued,
      if |store.evaluations| > |w.store.evaluations| then w.committed + [w.threads[t].draft] else w.committed)
  }

  lemma Joined(tables: Tables, steps: seq<Step>, worlds: seq<World>, more: seq<Step>, then_: seq<World>)
    requires Leads(tables, steps, worlds) && Leads(tables, more, then_) && worlds[|steps|] == then_[0]
    ensures Leads(tables, steps + more, worlds + then_[1..])
  {
    var all, seen := steps + more, worlds + then_[1..];
    forall i | 0 <= i < |all| ensures Next(tables, seen[i], all[i], seen[i + 1]) {
      if i < |steps| {
        assert Next(tables, worlds[i], steps[i], worlds[i + 1]);
      } else {
        assert Next(tables, then_[i - |steps|], more[i - |steps|], then_[i - |steps| + 1]);
      }
    }
  }

  /**
   * In any interleaving a new caller of a request whose policy is stored, whose ID is not bound to something else and
   * whose actions can be published, is answered in at most four steps of its own.
   */
  lemma EveryRequestIsAnswered(tables: Tables, steps: seq<Step>, worlds: seq<World>, n: nat, t: nat, req: Request,
      facts: Conditions.Facts, defaults: map<string, string>, draft: Draft, ids: seq<string>)
      returns (more: seq<Step>, then_: seq<World>)
    requires tables.Valid() && IsRun(tables, steps, worlds) && n < |worlds| && t !in worlds[n].threads
    requires Prepares(tables, req, facts, defaults, ids, draft)
    requires forall i | 0 <= i < |ids| :: ids[i] !in worlds[n].issued
    requires forall e | e in worlds[n].store.evaluations && e.requestId == req.id :: SameBinding(e, req)
    ensures Leads(tables, more, then_) && |more| <= 4 && then_[0] == worlds[n]
    ensures var threads := then_[|more|].threads;
      t in threads && threads[t].Returned? && threads[t].req == req
    ensures var x := then_[|more|].threads[t].result;
      if Known(worlds[n].store, req.id) then x.reused && x.evaluation in worlds[n].store.evaluations
      else x == Execution(draft.evaluation, draft.intents, false)
  {
    RunKeeps(tables, steps, worlds, n);
    more, then_ := LookUp(tables, worlds[n], t, req);
    if !Known(worlds[n].store, req.id) {
      var last, seen := LoadAndWrite(tables, then_[2], t, facts, defaults, ids, draft);
      Joined(tables, more, then_, last, seen);
      more, then_ := more + last, then_ + seen[1..];
    }
  }
}
