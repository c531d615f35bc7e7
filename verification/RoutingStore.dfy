/** Routing evaluations and publication intents: building, persisting once per request, and reloading in order. */
module RoutingStore {
  import opened Json
  import opened Ordering
  import opened RoutingPolicy
  import Conditions

  // ---------------------------------------------------------------- published policy rows

  datatype RuleRow = RuleRow(id: string, priority: int, condition: Conditions.Condition, stopOnMatch: bool,
    enabled: bool)

  datatype ActionRow = ActionRow(
    id: string, ruleId: string, destination: string, mode: string, template: Option<string>,
      identity: Option<string>, outputOrder: int)

  /** Rules and actions of a published policy version never change. */
  datatype Tables = Tables(policies: map<string, seq<RuleRow>>, actions: seq<ActionRow>)
  {
    /** Primary keys, and `uq_routing_action_output_order`. */
    ghost predicate Valid() {
      && (forall i, j | 0 <= i < j < |actions| :: actions[i].id != actions[j].id)
      && (forall i, j | 0 <= i < j < |actions| && actions[i].ruleId == actions[j].ruleId ::
        actions[i].outputOrder != actions[j].outputOrder)
      && (forall p | p in policies ::
        forall i, j | 0 <= i < j < |policies[p]| :: policies[p][i].id != policies[p][j].id)
    }
  }

  predicate ActionBefore(a: ActionRow, b: ActionRow) {
    a.outputOrder < b.outputOrder || (a.outputOrder == b.outputOrder && StringLess(a.id, b.id))
  }

  function ActionsOf(actions: seq<ActionRow>, ruleId: string): seq<ActionRow> {
    if actions == [] then []
    else
      var init, last := actions[..|actions| - 1], actions[|actions| - 1];
      ActionsOf(init, ruleId) + if last.ruleId == ruleId then [last] else []
  }

  function ToAction(row: ActionRow): Action {
    Action(row.id, row.destination, row.mode, row.template, row.identity, Some(row.ruleId))
  }

  function ToRule(tables: Tables, row: RuleRow): Rule {
    var rows := Sort(ActionBefore, ActionsOf(tables.actions, row.id));
    Rule(row.id, row.priority, row.condition, seq(|rows|, i requires 0 <= i < |rows| => ToAction(rows[i])),
      row.stopOnMatch, row.enabled)
  }

  function BuildPolicy(tables: Tables, version: string): (policy: Policy)
    requires version in tables.policies
    ensures |policy.rules| == |tables.policies[version]|
  {
    var rows := tables.policies[version];
    Policy(version, seq(|rows|, i requires 0 <= i < |rows| => ToRule(tables, rows[i])))
  }

  function FindAction(actions: seq<ActionRow>, id: string): Option<ActionRow> {
    if actions == [] then None
    else if actions[|actions| - 1].id == id then Some(actions[|actions| - 1])
    else FindAction(actions[..|actions| - 1], id)
  }

  // ---------------------------------------------------------------- evaluations and intents

  datatype Request = Request(id: string, messageId: string, policyId: string)

  datatype Evaluation = Evaluation(
    id: string, requestId: string, messageId: string, policyId: string, facts: Conditions.Facts,
    outcomes: seq<Outcome>, stoppedAt: Option<string>)

  datatype Intent = Intent(
    id: string, evaluationId: string, requestId: string, messageId: string, policyId: string, ruleId: string,
      actionId: string,
    destination: string, identity: string, mode: string, template: Option<string>, status: string)

  datatype Draft = Draft(evaluation: Evaluation, decision: Decision, intents: seq<Intent>)

  datatype Execution = Execution(evaluation: Evaluation, intents: seq<Intent>, reused: bool)

  function IntentOf(e: Evaluation, a: Action, identity: string, id: string): Intent
    requires a.ruleId.Some?
  {
    Intent(id, e.id, e.requestId, e.messageId, e.policyId, a.ruleId.value, a.id, a.destination, identity, a.mode,
      a.template, "pending")
  }

  function PublishIdentity(a: Action, defaults: map<string, string>): Option<string> {
    if a.identity.Some? then a.identity else if a.destination in defaults then Some(defaults[a.destination]) else None
  }

  ghost predicate Usable(a: Action, defaults: map<string, string>) {
    a.ruleId.Some? && PublishIdentity(a, defaults).Some? && !Blank(PublishIdentity(a, defaults).value)
  }

  ghost predicate IsIntent(e: Evaluation, a: Action, defaults: map<string, string>, id: string, intent: Intent) {
    Usable(a, defaults) && intent == IntentOf(e, a, PublishIdentity(a, defaults).value, id)
  }

  /** The intent that an action of a decision makes, for some ID and identity; a given identity is kept. */
  ghost predicate MadeFor(e: Evaluation, action: Action, intent: Intent) {
    exists id, identity ::
      && action.ruleId.Some? && (action.identity.Some? ==> action.identity.value == identity)
      && intent == Intent(id, e.id, e.requestId, e.messageId, e.policyId, action.ruleId.value, action.id,
           action.destination, identity, action.mode, action.template, "pending")
  }

  /** The channel identity to publish under: the action's own, or else its destination's default, and not blank. */
  ghost predicate Identifies(a: Action, defaults: map<string, string>, identity: string) {
    && (if a.identity.Some? then identity == a.identity.value
        else a.destination in defaults && identity == defaults[a.destination])
    && !AllSpaces(identity)
  }

  ghost predicate Publishable(a: Action, defaults: map<string, string>) {
    exists identity :: Identifies(a, defaults, identity)
  }

  lemma UsableExactly(a: Action, defaults: map<string, string>)
    ensures Usable(a, defaults) <==> a.ruleId.Some? && Publishable(a, defaults)
    ensures Usable(a, defaults) ==> Identifies(a, defaults, PublishIdentity(a, defaults).value)
  {
    var identity := PublishIdentity(a, defaults);
    if identity.Some? { BlankMeans(identity.value); }
    if Usable(a, defaults) {
      assert Identifies(a, defaults, identity.value);
    } else if other :| Identifies(a, defaults, other) {
      assert identity == Some(other);
    }
  }

  /** `_build_intents`: one intent for each action, in order, or failure if one has no usable identity. */
  method BuildIntents(e: Evaluation, actions: seq<Action>, defaults: map<string, string>, ids: seq<string>)
      returns (result: Result<seq<Intent>>)
    requires |ids| == |actions|
    ensures result.Ok? <==> forall i | 0 <= i < |actions| :: Usable(actions[i], defaults)
    ensures result.Ok? ==> IntentsFor(e, actions, defaults, ids, result.value)
    ensures result.Ok? <==>
      forall i | 0 <= i < |actions| :: actions[i].ruleId.Some? && Publishable(actions[i], defaults)
    ensures result.Ok? ==>
      && |result.value| == |actions|
      && forall i | 0 <= i < |actions| ::
           && Identifies(actions[i], defaults, result.value[i].identity)
           && result.value[i].id == ids[i] && MadeFor(e, actions[i], result.value[i])
  {
    forall i | 0 <= i < |actions|
      ensures Usable(actions[i], defaults) <==>
        actions[i].ruleId.Some? && Publishable(actions[i], defaults)
      ensures Usable(actions[i], defaults) ==>
        Identifies(actions[i], defaults, PublishIdentity(actions[i], defaults).value)
    {
      UsableExactly(actions[i], defaults);
    }
    var intents: seq<Intent> := [];
    for n := 0 to |actions|
      invariant |intents| == n
      invariant forall i | 0 <= i < n :: IsIntent(e, actions[i], defaults, ids[i], intents[i])
    {
      var action := actions[n];
      if action.ruleId == None { return Err("matched routing action has no owning rule"); }
      var identity := PublishIdentity(action, defaults);
      if identity == None || Blank(identity.value) { return Err("destination channel has no usable publish identity"); }
      intents := intents + [IntentOf(e, action, identity.value, ids[n])];
    }
    forall i | 0 <= i < |actions| ensures MadeFor(e, actions[i], intents[i]) {
      assert IsIntent(e, actions[i], defaults, ids[i], intents[i]);
    }
    result := Ok(intents);
  }

  ghost predicate IntentsFor(e: Evaluation, actions: seq<Action>, defaults: map<string, string>, ids: seq<string>,
      intents: seq<Intent>) {
    && |intents| == |actions| == |ids|
    && forall i | 0 <= i < |actions| :: IsIntent(e, actions[i], defaults, ids[i], intents[i])
  }

  /** What `evaluate` prepares for a request before it persists. */
  ghost predicate Prepares(tables: Tables, req: Request, facts: Conditions.Facts, defaults: map<string, string>,
      ids: seq<string>, d: Draft) {
    && req.policyId in tables.policies
    && Decides(Sort(RuleBefore, BuildPolicy(tables, req.policyId).rules), TestOf(facts), d.decision)
    && |ids| > 0
    && d.evaluation == Evaluation(ids[0], req.id, req.messageId, req.policyId, facts, d.decision.outcomes,
      d.decision.stoppedAt)
    && IntentsFor(d.evaluation, d.decision.actions, defaults, ids[1..], d.intents)
  }

  // ---------------------------------------------------------------- the unique constraints on intents

  predicate ActionsOnce(intents: seq<Intent>) {
    forall i, j | 0 <= i < j < |intents| :: intents[i].actionId != intents[j].actionId
  }

  /** What the unique business key of an intent is a hash of. */
  function BusinessKey(a: Intent): seq<string> {
    [a.messageId, a.destination, a.policyId, a.ruleId, a.actionId, a.mode, a.requestId, a.evaluationId]
  }

  /** The two rows cannot both be stored. */
  predicate Clash(a: Intent, b: Intent) {
    (a.evaluationId == b.evaluationId && a.actionId == b.actionId) || BusinessKey(a) == BusinessKey(b)
  }

  predicate Conflicts(stored: seq<Intent>, added: seq<Intent>) {
    || (exists i, j | 0 <= i < |stored| && 0 <= j < |added| :: Clash(stored[i], added[j]))
    || (exists i, j | 0 <= i < j < |added| :: Clash(added[i], added[j]))
  }

  /** Intents of one evaluation, each for another action, never conflict with those of other evaluations. */
  lemma FreshIntentsFit(stored: seq<Intent>, added: seq<Intent>, evaluationId: string)
    requires forall i | 0 <= i < |stored| :: stored[i].evaluationId != evaluationId
    requires ActionsOnce(added) && forall i | 0 <= i < |added| :: added[i].evaluationId == evaluationId
    ensures !Conflicts(stored, added)
  {
    forall a: Intent, b: Intent | BusinessKey(a) == BusinessKey(b)
      ensures a.evaluationId == b.evaluationId && a.actionId == b.actionId
    {
      assert BusinessKey(a)[7] == BusinessKey(b)[7] && BusinessKey(a)[4] == BusinessKey(b)[4];
    }
  }

  /** `_validate_persistence_payload` */
  predicate PayloadValid(d: Draft) {
    && d.evaluation.outcomes == d.decision.outcomes
    && d.evaluation.stoppedAt == d.decision.stoppedAt
    && |d.intents| == |d.decision.actions|
    && forall i | 0 <= i < |d.intents| ::
      var intent, action := d.intents[i], d.decision.actions[i];
      && intent.evaluationId == d.evaluation.id && intent.requestId == d.evaluation.requestId
      && intent.messageId == d.evaluation.messageId && intent.policyId == d.evaluation.policyId
        && intent.status == "pending"
      && action.ruleId == Some(intent.ruleId) && intent.actionId == action.id
        && intent.destination == action.destination
      && intent.mode == action.mode && intent.template == action.template
      && (action.identity.Some? ==> intent.identity == action.identity.value)
  }

  /** A payload passes exactly when it holds the decision's outcomes and an intent made for each of its actions. */
  lemma PayloadValidExactly(d: Draft)
    ensures PayloadValid(d) <==>
      && d.evaluation.outcomes == d.decision.outcomes && d.evaluation.stoppedAt == d.decision.stoppedAt
      && |d.intents| == |d.decision.actions|
      && forall i | 0 <= i < |d.intents| :: MadeFor(d.evaluation, d.decision.actions[i], d.intents[i])
  {
    forall i | 0 <= i < |d.intents| && PayloadValid(d)
      ensures MadeFor(d.evaluation, d.decision.actions[i], d.intents[i])
    {
      var intent := d.intents[i];
      assert intent == Intent(intent.id, d.evaluation.id, d.evaluation.requestId, d.evaluation.messageId,
        d.evaluation.policyId, d.decision.actions[i].ruleId.value, d.decision.actions[i].id,
        d.decision.actions[i].destination, intent.identity, d.decision.actions[i].mode,
        d.decision.actions[i].template, "pending");
    }
  }

  /** Rows that a unique constraint keeps apart: one action of one evaluation, or one business key. */
  predicate SameRow(a: Intent, b: Intent) {
    || (a.evaluationId == b.evaluationId && a.actionId == b.actionId)
    || (&& a.messageId == b.messageId && a.destination == b.destination && a.policyId == b.policyId
        && a.ruleId == b.ruleId && a.actionId == b.actionId && a.mode == b.mode && a.requestId == b.requestId
        && a.evaluationId == b.evaluationId)
  }

  predicate Unique(intents: seq<Intent>) {
    forall i, j | 0 <= i < j < |intents| :: !SameRow(intents[i], intents[j])
  }

  lemma ClashMeans(a: Intent, b: Intent)
    ensures Clash(a, b) <==> SameRow(a, b)
  {
    var s, t := BusinessKey(a), BusinessKey(b);
    assert s == t <==> forall k | 0 <= k < 8 :: s[k] == t[k];
    assert s == t ==> s[7] == t[7] && s[4] == t[4];
  }

  /** An insertion conflicts exactly when the table would no longer meet the constraints. */
  lemma ConflictsExactly(stored: seq<Intent>, added: seq<Intent>)
    requires Unique(stored)
    ensures Conflicts(stored, added) <==> !Unique(stored + added)
  {
    var all := stored + added;
    forall a, b ensures Clash(a, b) <==> SameRow(a, b) { ClashMeans(a, b); }
    if i, j :| 0 <= i < |stored| && 0 <= j < |added| && Clash(stored[i], added[j]) {
      assert SameRow(all[i], all[|stored| + j]);
    }
    if i, j :| 0 <= i < j < |added| && Clash(added[i], added[j]) {
      assert SameRow(all[|stored| + i], all[|stored| + j]);
    }
    if i, j :| 0 <= i < j < |all| && SameRow(all[i], all[j]) {
      assert |stored| <= j;
      if i < |stored| {
        assert Clash(stored[i], added[j - |stored|]);
      } else {
        assert Clash(added[i - |stored|], added[j - |stored|]);
      }
    }
  }

  lemma PreparedPayloadValid(tables: Tables, req: Request, facts: Conditions.Facts, defaults: map<string, string>,
      ids: seq<string>, d: Draft)
    requires Prepares(tables, req, facts, defaults, ids, d)
    ensures PayloadValid(d)
  {}

  // ---------------------------------------------------------------- reload

  function Rank(outcomes: seq<Outcome>, ruleId: string): nat
    ensures Rank(outcomes, ruleId) <= |outcomes|
  {
    if exists i :: 0 <= i < |outcomes| && outcomes[i].ruleId == ruleId then
      LastIndex(outcomes, ruleId)
    else |outcomes|
  }

  function LastIndex(outcomes: seq<Outcome>, ruleId: string): (i: nat)
    requires exists i :: 0 <= i < |outcomes| && outcomes[i].ruleId == ruleId
    ensures i < |outcomes| && outcomes[i].ruleId == ruleId
  {
    if outcomes[|outcomes| - 1].ruleId == ruleId then |outcomes| - 1 else LastIndex(outcomes[..|outcomes| - 1], ruleId)
  }

  function OutputOrder(actions: seq<ActionRow>, actionId: string): int {
    var found := FindAction(actions, actionId);
    if found.Some? then found.value.outputOrder else 0
  }

  predicate KeyBefore(rankA: int, orderA: int, idA: string, rankB: int, orderB: int, idB: string) {
    rankA < rankB || (rankA == rankB && (orderA < orderB || (orderA == orderB && StringLess(idA, idB))))
  }

  /** The sort key of `_load_execution_by_request`: outcome rank, action order, intent ID. */
  function IntentOrder(tables: Tables, outcomes: seq<Outcome>): (Intent, Intent) -> bool {
    (a: Intent, b: Intent) => KeyBefore(
      Rank(outcomes, a.ruleId), OutputOrder(tables.actions, a.actionId), a.id,
      Rank(outcomes, b.ruleId), OutputOrder(tables.actions, b.actionId), b.id)
  }

  function Reload(tables: Tables, e: Evaluation, listed: seq<Intent>): Result<Execution> {
    if exists i :: 0 <= i < |listed| && FindAction(tables.actions, listed[i].actionId) == None then
      Err("stored publication intent references a missing routing action")
    else Ok(Execution(e, Sort(IntentOrder(tables, e.outcomes), listed), true))
  }

  lemma KeyBeforeLaws(r: int, o: int, i: string, r': int, o': int, i': string, r'': int, o'': int, i'': string)
    ensures !KeyBefore(r, o, i, r, o, i)
    ensures KeyBefore(r, o, i, r', o', i') && KeyBefore(r', o', i', r'', o'', i'') ==> KeyBefore(r, o, i, r'', o'', i'')
    ensures KeyBefore(r, o, i, r'', o'', i'') ==> KeyBefore(r, o, i, r', o', i') || KeyBefore(r', o', i', r'', o'', i'')
  {
    StringLessTotal(i, i);
    StringLessTotal(i, i');
    StringLessTotal(i', i'');
    if StringLess(i, i') && StringLess(i', i'') { StringLessTransitive(i, i', i''); }
    if StringLess(i', i) && StringLess(i, i'') { StringLessTransitive(i', i, i''); }
  }

  lemma IntentKeyOrder(tables: Tables, outcomes: seq<Outcome>)
    ensures KeyOrder(IntentOrder(tables, outcomes))
  {
    var before := IntentOrder(tables, outcomes);
    forall a, b, c
      ensures !before(a, a)
      ensures before(a, b) && before(b, c) ==> before(a, c)
      ensures before(a, c) ==> before(a, b) || before(b, c)
    {
      KeyBeforeLaws(
        Rank(outcomes, a.ruleId), OutputOrder(tables.actions, a.actionId), a.id,
        Rank(outcomes, b.ruleId), OutputOrder(tables.actions, b.actionId), b.id,
        Rank(outcomes, c.ruleId), OutputOrder(tables.actions, c.actionId), c.id);
    }
    forall a ensures !before(a, a) {
      KeyBeforeLaws(
        Rank(outcomes, a.ruleId), OutputOrder(tables.actions, a.actionId), a.id,
        Rank(outcomes, a.ruleId), OutputOrder(tables.actions, a.actionId), a.id,
        Rank(outcomes, a.ruleId), OutputOrder(tables.actions, a.actionId), a.id);
    }
  }

  // ---------------------------------------------------------------- stored order is decision order

  /** The action is a stored row of the rule. */
  predicate StoredUnder(tables: Tables, actionId: string, ruleId: string) {
    FindAction(tables.actions, actionId).Some? && FindAction(tables.actions, actionId).value.ruleId == ruleId
  }

  /** Actions listed by rule rank, then by output order. */
  ghost predicate InOrder(tables: Tables, outcomes: seq<Outcome>, actions: seq<Action>) {
    && (forall i | 0 <= i < |actions| ::
      actions[i].ruleId.Some? && StoredUnder(tables, actions[i].id, actions[i].ruleId.value))
    && (forall i, j | 0 <= i < j < |actions| ::
        var r, s := Rank(outcomes, actions[i].ruleId.value), Rank(outcomes, actions[j].ruleId.value);
        r < s || (r == s && OutputOrder(tables.actions, actions[i].id) < OutputOrder(tables.actions, actions[j].id)))
  }

  lemma {:induction false} FindStored(actions: seq<ActionRow>, row: ActionRow)
    requires forall i, j | 0 <= i < j < |actions| :: actions[i].id != actions[j].id
    requires row in actions
    ensures FindAction(actions, row.id) == Some(row)
  {
    var init, last := actions[..|actions| - 1], actions[|actions| - 1];
    if last != row {
      var k :| 0 <= k < |actions| && actions[k] == row;
      assert init[k] == row;
      assert last.id != row.id;
      FindStored(init, row);
    }
  }

  lemma {:induction false} ActionsOfContents(actions: seq<ActionRow>, ruleId: string)
    ensures forall row :: row in ActionsOf(actions, ruleId) <==> row in actions && row.ruleId == ruleId
    ensures (forall i, j | 0 <= i < j < |actions| && actions[i].ruleId == actions[j].ruleId ::
      actions[i].outputOrder != actions[j].outputOrder)
      ==> DistinctKeys(ActionBefore, ActionsOf(actions, ruleId))
  {
    if actions != [] {
      var init, last := actions[..|actions| - 1], actions[|actions| - 1];
      ActionsOfContents(init, ruleId);
      assert actions == init + [last];
      forall row | row in init && row.ruleId == last.ruleId
        ensures (forall i, j | 0 <= i < j < |actions| && actions[i].ruleId == actions[j].ruleId ::
          actions[i].outputOrder != actions[j].outputOrder)
          ==> row.outputOrder != last.outputOrder
      {
        var k :| 0 <= k < |init| && init[k] == row;
        assert actions[k] == row;
      }
    }
  }

  /** The actions of a built rule ascend in output order, and every one is a stored row of that rule. */
  lemma RuleActionsOrdered(tables: Tables, row: RuleRow)
    requires tables.Valid()
    ensures var actions := ToRule(tables, row).actions;
      && (forall i | 0 <= i < |actions| :: StoredUnder(tables, actions[i].id, row.id))
      && (forall i, j | 0 <= i < j < |actions| ::
          OutputOrder(tables.actions, actions[i].id) < OutputOrder(tables.actions, actions[j].id))
  {
    var listed := ActionsOf(tables.actions, row.id);
    var rows := Sort(ActionBefore, listed);
    ActionsOfContents(tables.actions, row.id);
    ActionOrder();
    SortStrict(ActionBefore, listed);
    forall i | 0 <= i < |rows|
      ensures rows[i] in tables.actions && rows[i].ruleId == row.id
      ensures FindAction(tables.actions, rows[i].id) == Some(rows[i])
    {
      assert rows[i] in rows;
      FindStored(tables.actions, rows[i]);
    }
    forall i, j | 0 <= i < j < |rows| ensures rows[i].outputOrder < rows[j].outputOrder {
      OrdersDiffer(tables, rows[i], rows[j]);
    }
  }

  lemma OrdersDiffer(tables: Tables, a: ActionRow, b: ActionRow)
    requires tables.Valid() && a in tables.actions && b in tables.actions && a.ruleId == b.ruleId && ActionBefore(a, b)
    ensures a.outputOrder < b.outputOrder
  {
    var i :| 0 <= i < |tables.actions| && tables.actions[i] == a;
    var j :| 0 <= j < |tables.actions| && tables.actions[j] == b;
    StringLessTotal(a.id, a.id);
  }

  lemma ActionOrder()
    ensures KeyOrder(ActionBefore)
  {
    StringOrder();
  }

  ghost predicate BuiltRules(tables: Tables, ordered: seq<Rule>) {
    && (forall i, j | 0 <= i < j < |ordered| :: ordered[i].id != ordered[j].id)
    && (forall i | 0 <= i < |ordered| :: exists row :: ordered[i] == ToRule(tables, row))
  }

  lemma PolicyRules(tables: Tables, version: string)
    requires tables.Valid() && version in tables.policies
    ensures BuiltRules(tables, Sort(RuleBefore, BuildPolicy(tables, version).rules))
    ensures DistinctRules(BuildPolicy(tables, version).rules)
  {
    var rules := BuildPolicy(tables, version).rules;
    var ordered := Sort(RuleBefore, rules);
    assert DistinctRules(rules);
    RuleOrder();
    DistinctRuleKeys(rules);
    SortSorts(RuleBefore, rules);
    SameElements(ordered, rules);
    NoRepeats(rules, ordered);
    forall i | 0 <= i < |ordered| ensures exists row :: ordered[i] == ToRule(tables, row) {
      assert ordered[i] in rules;
      var k :| 0 <= k < |rules| && rules[k] == ordered[i];
      assert rules[k] == ToRule(tables, tables.policies[version][k]);
    }
    forall i, j | 0 <= i < j < |ordered| ensures ordered[i].id != ordered[j].id {
      assert ordered[i] in rules && ordered[j] in rules;
    }
  }

  lemma RankIsPosition(ordered: seq<Rule>, outcomes: seq<Outcome>, i: nat)
    requires forall i, j | 0 <= i < j < |ordered| :: ordered[i].id != ordered[j].id
    requires i < |outcomes| <= |ordered| && forall k | 0 <= k < |outcomes| :: outcomes[k].ruleId == ordered[k].id
    ensures Rank(outcomes, ordered[i].id) == i
  {
    assert outcomes[i].ruleId == ordered[i].id;
    var k := LastIndex(outcomes, ordered[i].id);
    assert ordered[k].id == ordered[i].id;
  }

  /** The actions of a later rule go after those of earlier ones. */
  lemma AppendRuleActions(tables: Tables, outcomes: seq<Outcome>, before: seq<Action>, rule: Rule, rank: nat)
    requires InOrder(tables, outcomes, before) && Rank(outcomes, rule.id) == rank
    requires forall i | 0 <= i < |before| :: Rank(outcomes, before[i].ruleId.value) < rank
    requires forall i | 0 <= i < |rule.actions| :: StoredUnder(tables, rule.actions[i].id, rule.id)
    requires forall i, j | 0 <= i < j < |rule.actions| ::
      OutputOrder(tables.actions, rule.actions[i].id) < OutputOrder(tables.actions, rule.actions[j].id)
    ensures InOrder(tables, outcomes, before + Owned(rule))
    ensures forall i | 0 <= i < |before + Owned(rule)| :: Rank(outcomes, (before + Owned(rule))[i].ruleId.value) <= rank
  {
    var actions := before + Owned(rule);
    forall i | |before| <= i < |actions| ensures actions[i] == rule.actions[i - |before|].(ruleId := Some(rule.id)) {
      assert actions[i] == Owned(rule)[i - |before|];
    }
  }

  lemma {:induction false} MatchedInOrder(tables: Tables, ordered: seq<Rule>, outcomes: seq<Outcome>, test: Test,
      n: nat)
    requires tables.Valid() && BuiltRules(tables, ordered)
    requires n <= |outcomes| <= |ordered| && forall k | 0 <= k < |outcomes| :: outcomes[k].ruleId == ordered[k].id
    ensures var actions := MatchedActions(ordered[..n], test);
      InOrder(tables, outcomes, actions) &&
      forall i | 0 <= i < |actions| :: Rank(outcomes, actions[i].ruleId.value) < n
  {
    if n > 0 {
      var rule := ordered[n - 1];
      MatchedInOrder(tables, ordered, outcomes, test, n - 1);
      assert ordered[..n][..n - 1] == ordered[..n - 1];
      var row :| rule == ToRule(tables, row);
      RuleActionsOrdered(tables, row);
      RankIsPosition(ordered, outcomes, n - 1);
      AppendRuleActions(tables, outcomes, MatchedActions(ordered[..n - 1], test), rule, n - 1);
    }
  }

  lemma DecisionInOrder(tables: Tables, version: string, test: Test, d: Decision)
    requires tables.Valid() && version in tables.policies
    requires Decides(Sort(RuleBefore, BuildPolicy(tables, version).rules), test, d)
    ensures InOrder(tables, d.outcomes, d.actions)
  {
    PolicyRules(tables, version);
    MatchedInOrder(tables, Sort(RuleBefore, BuildPolicy(tables, version).rules), d.outcomes, test, |d.outcomes|);
  }

  /** No action occurs twice in a decision. */
  lemma ActionsDistinct(tables: Tables, outcomes: seq<Outcome>, actions: seq<Action>)
    requires InOrder(tables, outcomes, actions)
    ensures forall i, j | 0 <= i < j < |actions| :: actions[i].id != actions[j].id
  {
    forall i, j | 0 <= i < j < |actions| ensures actions[i].id != actions[j].id {
      assert StoredUnder(tables, actions[i].id, actions[i].ruleId.value)
        && StoredUnder(tables, actions[j].id, actions[j].ruleId.value);
    }
  }

  lemma IntentsAscend(tables: Tables, e: Evaluation, actions: seq<Action>, defaults: map<string, string>,
      ids: seq<string>, intents: seq<Intent>)
    requires InOrder(tables, e.outcomes, actions) && IntentsFor(e, actions, defaults, ids, intents)
    ensures StrictlyAscending(IntentOrder(tables, e.outcomes), intents)
    ensures forall i | 0 <= i < |intents| :: FindAction(tables.actions, intents[i].actionId).Some?
    ensures ActionsOnce(intents)
  {
    ActionsDistinct(tables, e.outcomes, actions);
    forall i | 0 <= i < |intents|
      ensures intents[i].ruleId == actions[i].ruleId.value && intents[i].actionId == actions[i].id
    {
      assert IsIntent(e, actions[i], defaults, ids[i], intents[i]);
    }
    var before := IntentOrder(tables, e.outcomes);
    forall i, j | 0 <= i < j < |intents| ensures before(intents[i], intents[j]) {
      var a, b := intents[i], intents[j];
      assert a.ruleId == actions[i].ruleId.value && b.ruleId == actions[j].ruleId.value;
      assert KeyBefore(
        Rank(e.outcomes, a.ruleId), OutputOrder(tables.actions, a.actionId), a.id,
        Rank(e.outcomes, b.ruleId), OutputOrder(tables.actions, b.actionId), b.id);
    }
  }

  /** The prepared intents already stand in the order a reload sorts by. */
  lemma PreparedIntentsAscend(tables: Tables, req: Request, facts: Conditions.Facts, defaults: map<string, string>,
      ids: seq<string>, d: Draft)
    requires tables.Valid() && Prepares(tables, req, facts, defaults, ids, d)
    ensures StrictlyAscending(IntentOrder(tables, d.evaluation.outcomes), d.intents)
    ensures forall i | 0 <= i < |d.intents| :: FindAction(tables.actions, d.intents[i].actionId).Some?
    ensures ActionsOnce(d.intents)
  {
    DecisionInOrder(tables, req.policyId, TestOf(facts), d.decision);
    IntentsAscend(tables, d.evaluation, d.decision.actions, defaults, ids[1..], d.intents);
  }

  /** Whatever order the database lists the rows in, reloading restores the original order. */
  lemma ReloadRestores(tables: Tables, e: Evaluation, intents: seq<Intent>, listed: seq<Intent>)
    requires StrictlyAscending(IntentOrder(tables, e.outcomes), intents)
    requires forall i | 0 <= i < |intents| :: FindAction(tables.actions, intents[i].actionId).Some?
    requires multiset(listed) == multiset(intents)
    ensures Reload(tables, e, listed) == Ok(Execution(e, intents, true))
  {
    var before := IntentOrder(tables, e.outcomes);
    IntentKeyOrder(tables, e.outcomes);
    SortOrderIrrelevant(before, intents, listed);
    SortStrict(before, intents);
    StrictArrangementUnique(before, Sort(before, intents), intents);
    SameElements(listed, intents);
    forall i | 0 <= i < |listed| ensures FindAction(tables.actions, listed[i].actionId).Some? {
      assert listed[i] in intents;
    }
  }
}
