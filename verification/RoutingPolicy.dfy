/** Prioritised routing rules with stop-on-match. */
module RoutingPolicy {
  import opened Json
  import opened Ordering
  import Conditions

  datatype Action = Action(
    id: string, destination: string, mode: string, template: Option<string>, identity: Option<string>,
      ruleId: Option<string>)

  datatype Rule = Rule(
    id: string, priority: int, condition: Conditions.Condition, actions: seq<Action>, stopOnMatch: bool, enabled: bool)

  datatype Policy = Policy(versionId: string, rules: seq<Rule>)

  datatype Outcome = Outcome(ruleId: string, enabled: bool, checked: bool, evaluated: bool, matched: bool,
    stoppedAfterMatch: bool)

  datatype Decision = Decision(outcomes: seq<Outcome>, actions: seq<Action>, stoppedAt: Option<string>)

  /** `RoutingPolicy.__post_init__` rejects repeated rule IDs. */
  ghost predicate DistinctRules(rules: seq<Rule>) {
    forall i, j | 0 <= i < j < |rules| :: rules[i].id != rules[j].id
  }

  predicate RuleBefore(a: Rule, b: Rule) {
    a.priority > b.priority || (a.priority == b.priority && StringLess(a.id, b.id))
  }

  lemma RuleOrder()
    ensures KeyOrder(RuleBefore)
  {
    StringOrder();
  }

  lemma DistinctRuleKeys(rules: seq<Rule>)
    requires DistinctRules(rules)
    ensures DistinctKeys(RuleBefore, rules)
  {
    StringOrder();
  }

  /** Which conditions hold; `TestOf` is the instance for given facts. */
  type Test = Conditions.Condition -> bool

  function TestOf(facts: Conditions.Facts): Test { c => Conditions.Holds(c, facts) }

  predicate Matches(rule: Rule, test: Test) { rule.enabled && test(rule.condition) }

  predicate Stops(rule: Rule, test: Test) {
    Matches(rule, test) && rule.stopOnMatch
  }

  function OutcomeOf(rule: Rule, test: Test): Outcome {
    Outcome(rule.id, rule.enabled, true, rule.enabled, Matches(rule, test), Stops(rule, test))
  }

  function Owned(rule: Rule): (actions: seq<Action>)
    ensures |actions| == |rule.actions|
  {
    seq(|rule.actions|, i requires 0 <= i < |rule.actions| => rule.actions[i].(ruleId := Some(rule.id)))
  }

  /** The actions of all matching rules, in the order of the rules. */
  function MatchedActions(rules: seq<Rule>, test: Test): seq<Action> {
    if rules == [] then []
    else
      var last := rules[|rules| - 1];
      MatchedActions(rules[..|rules| - 1], test) + if Matches(last, test) then Owned(last) else []
  }

  /** The decision looks at the first `n` rules: all of them, or those up to the first that stops. */
  ghost predicate StopsAfter(ordered: seq<Rule>, test: Test, n: nat) {
    && n <= |ordered|
    && (forall i | 0 <= i < n - 1 :: !Stops(ordered[i], test))
    && (n < |ordered| ==> n > 0 && Stops(ordered[n - 1], test))
  }

  ghost predicate Decides(ordered: seq<Rule>, test: Test, d: Decision) {
    var n := |d.outcomes|;
    && StopsAfter(ordered, test, n)
    && (forall i | 0 <= i < n :: d.outcomes[i] == OutcomeOf(ordered[i], test))
    && d.actions == MatchedActions(ordered[..n], test)
    && d.stoppedAt == (if n > 0 && Stops(ordered[n - 1], test) then Some(ordered[n - 1].id) else None)
  }

  method EvaluateOrdered(ordered: seq<Rule>, test: Test) returns (d: Decision)
    ensures Decides(ordered, test, d)
  {
    var outcomes: seq<Outcome>, actions: seq<Action>, stoppedAt: Option<string> := [], [], None;
    for n := 0 to |ordered|
      invariant |outcomes| == n && stoppedAt == None
      invariant forall i | 0 <= i < n :: !Stops(ordered[i], test) && outcomes[i] == OutcomeOf(ordered[i], test)
      invariant actions == MatchedActions(ordered[..n], test)
    {
      var rule := ordered[n];
      assert ordered[..n + 1][..n] == ordered[..n];
      if !rule.enabled {
        outcomes := outcomes + [Outcome(rule.id, false, true, false, false, false)];
        continue;
      }
      var matched := test(rule.condition);
      var shouldStop := matched && rule.stopOnMatch;
      outcomes := outcomes + [Outcome(rule.id, true, true, true, matched, shouldStop)];
      if matched { actions := actions + Owned(rule); }
      if shouldStop {
        return Decision(outcomes, actions, Some(rule.id));
      }
    }
    assert ordered[..|ordered|] == ordered;
    d := Decision(outcomes, actions, stoppedAt);
  }

  // ---------------------------------------------------------------- what a decision says of the rules

  /** A rule of higher priority is looked at first; among equal ones the smaller ID. */
  predicate InTurn(looked: seq<Rule>) {
    forall i, j | 0 <= i < j < |looked| ::
      looked[i].priority >= looked[j].priority
      && (looked[i].priority == looked[j].priority ==> StringLess(looked[i].id, looked[j].id))
  }

  /** The outcome tells whether the rule is enabled, whether it matches, and whether it stops the evaluation. */
  predicate Reports(rule: Rule, test: Test, o: Outcome) {
    && o.ruleId == rule.id && o.enabled == rule.enabled && o.checked && o.evaluated == rule.enabled
    && o.matched == (rule.enabled && test(rule.condition))
    && o.stoppedAfterMatch == (rule.enabled && test(rule.condition) && rule.stopOnMatch)
  }

  /** Each outcome is about its own rule, and none but the last stopped the evaluation. */
  predicate ReportsEach(looked: seq<Rule>, test: Test, outcomes: seq<Outcome>) {
    && |looked| == |outcomes|
    && (forall i | 0 <= i < |looked| :: Reports(looked[i], test, outcomes[i]))
    && (forall i | 0 <= i < |looked| - 1 :: !outcomes[i].stoppedAfterMatch)
  }

  /** If a rule stopped the evaluation no rule that comes before it was left out; if none did, no rule was. */
  predicate NoneSkipped(rules: seq<Rule>, looked: seq<Rule>, d: Decision) {
    |looked| == |d.outcomes| &&
    match d.stoppedAt
    case None =>
      (forall rule | rule in rules :: rule in looked) && forall o | o in d.outcomes :: !o.stoppedAfterMatch
    case Some(id) =>
      && looked != [] && d.outcomes[|looked| - 1].stoppedAfterMatch && looked[|looked| - 1].id == id
      && var last := looked[|looked| - 1];
      forall rule | rule in rules && (rule.priority > last.priority
        || (rule.priority == last.priority && StringLess(rule.id, last.id))) :: rule in looked
  }

  /** The outcomes are about different rules of the policy, in turn, none of them skipped. */
  predicate LooksAt(rules: seq<Rule>, test: Test, d: Decision, looked: seq<Rule>) {
    && (forall rule | rule in looked :: rule in rules) && InTurn(looked)
    && ReportsEach(looked, test, d.outcomes) && NoneSkipped(rules, looked, d)
  }

  function ActionLists(looked: seq<Rule>, outcomes: seq<Outcome>): (lists: seq<seq<Action>>)
    requires |looked| == |outcomes|
    ensures |lists| == |looked|
  {
    seq(|looked|, i requires 0 <= i < |looked| => if outcomes[i].matched then Owned(looked[i]) else [])
  }

  /** For each matching rule its own actions, labelled with it; nothing for the others. */
  predicate OwnLists(looked: seq<Rule>, outcomes: seq<Outcome>, lists: seq<seq<Action>>) {
    && |lists| == |looked| == |outcomes|
    && forall i | 0 <= i < |looked| ::
         if outcomes[i].matched then
           && |lists[i]| == |looked[i].actions|
           && forall k | 0 <= k < |lists[i]| :: lists[i][k] == looked[i].actions[k].(ruleId := Some(looked[i].id))
         else lists[i] == []
  }

  /** The actions are those of the matching rules, rule after rule. */
  ghost predicate ActsOn(d: Decision, looked: seq<Rule>) {
    exists lists, starts :: OwnLists(looked, d.outcomes, lists) && Concatenates(lists, starts, d.actions)
  }

  ghost predicate Follows(rules: seq<Rule>, test: Test, d: Decision) {
    exists looked :: LooksAt(rules, test, d, looked) && ActsOn(d, looked)
  }

  lemma {:induction false} MatchedConcatenate(ordered: seq<Rule>, test: Test, outcomes: seq<Outcome>)
      returns (starts: seq<nat>)
    requires |outcomes| == |ordered|
    requires forall i | 0 <= i < |ordered| :: outcomes[i].matched == Matches(ordered[i], test)
    ensures Concatenates(ActionLists(ordered, outcomes), starts, MatchedActions(ordered, test))
  {
    if ordered == [] {
      starts := [0];
    } else {
      var n := |ordered| - 1;
      starts := MatchedConcatenate(ordered[..n], test, outcomes[..n]);
      var lists := ActionLists(ordered[..n], outcomes[..n]);
      var more := if outcomes[n].matched then Owned(ordered[n]) else [];
      var actions := MatchedActions(ordered[..n], test);
      ConcatenatesMore(lists, starts, actions, more);
      assert ActionLists(ordered, outcomes) == lists + [more] && MatchedActions(ordered, test) == actions + more;
      starts := starts + [|actions| + |more|];
    }
  }

  lemma MatchedActsOn(looked: seq<Rule>, test: Test, d: Decision)
    requires ReportsEach(looked, test, d.outcomes) && d.actions == MatchedActions(looked, test)
    ensures ActsOn(d, looked)
  {
    var starts := MatchedConcatenate(looked, test, d.outcomes);
    assert OwnLists(looked, d.outcomes, ActionLists(looked, d.outcomes));
  }

  /** Sorted rules stand in turn. */
  lemma SortedInTurn(rules: seq<Rule>)
    requires DistinctRules(rules)
    ensures InTurn(Sort(RuleBefore, rules)) && forall rule :: rule in Sort(RuleBefore, rules) <==> rule in rules
  {
    RuleOrder();
    DistinctRuleKeys(rules);
    SortStrict(RuleBefore, rules);
    var ordered := Sort(RuleBefore, rules);
    forall i, j | 0 <= i < j < |ordered| ensures RuleBefore(ordered[i], ordered[j]) {}
  }

  lemma NoneLeftOut(ordered: seq<Rule>, n: nat, rule: Rule)
    requires InTurn(ordered) && 0 < n <= |ordered| && rule in ordered
    requires rule.priority > ordered[n - 1].priority
      || (rule.priority == ordered[n - 1].priority && StringLess(rule.id, ordered[n - 1].id))
    ensures rule in ordered[..n]
  {
    StringOrder();
    var i :| 0 <= i < |ordered| && ordered[i] == rule;
    assert i < n;
    assert ordered[..n][i] == rule;
  }

  lemma DecidedEach(ordered: seq<Rule>, test: Test, d: Decision)
    requires Decides(ordered, test, d)
    ensures ReportsEach(ordered[..|d.outcomes|], test, d.outcomes)
  {
  }

  lemma DecidedSkipsNone(ordered: seq<Rule>, test: Test, d: Decision)
    requires InTurn(ordered) && Decides(ordered, test, d)
    ensures NoneSkipped(ordered, ordered[..|d.outcomes|], d)
  {
    var n := |d.outcomes|;
    if d.stoppedAt.None? {
      assert ordered[..n] == ordered;
    } else {
      forall rule | rule in ordered && (rule.priority > ordered[n - 1].priority
        || (rule.priority == ordered[n - 1].priority && StringLess(rule.id, ordered[n - 1].id)))
        ensures rule in ordered[..n]
      {
        NoneLeftOut(ordered, n, rule);
      }
    }
  }

  lemma LooksAtPrefix(rules: seq<Rule>, ordered: seq<Rule>, test: Test, d: Decision)
    requires InTurn(ordered) && (forall rule :: rule in ordered <==> rule in rules) && |d.outcomes| <= |ordered|
    requires var looked := ordered[..|d.outcomes|];
      ReportsEach(looked, test, d.outcomes) && NoneSkipped(ordered, looked, d)
    ensures LooksAt(rules, test, d, ordered[..|d.outcomes|])
  {
    var looked := ordered[..|d.outcomes|];
    forall rule | rule in looked ensures rule in ordered {}
    assert InTurn(looked);
    NoneSkippedOf(rules, ordered, looked, d);
  }

  lemma NoneSkippedOf(rules: seq<Rule>, ordered: seq<Rule>, looked: seq<Rule>, d: Decision)
    requires (forall rule :: rule in ordered <==> rule in rules) && NoneSkipped(ordered, looked, d)
    ensures NoneSkipped(rules, looked, d)
  {
  }

  /** A decision looks at the rules by falling priority, then by rising ID, up to the first that stops. */
  lemma DecisionFollows(rules: seq<Rule>, test: Test, d: Decision)
    requires DistinctRules(rules) && Decides(Sort(RuleBefore, rules), test, d)
    ensures Follows(rules, test, d)
  {
    var ordered := Sort(RuleBefore, rules);
    SortedInTurn(rules);
    DecidedEach(ordered, test, d);
    DecidedSkipsNone(ordered, test, d);
    var looked := ordered[..|d.outcomes|];
    LooksAtPrefix(rules, ordered, test, d);
    MatchedActsOn(looked, test, d);
  }

  /** Each outcome says of the rule that it names whether it is enabled, valid, and true of the facts. */
  ghost predicate Judges(rules: seq<Rule>, facts: Conditions.Facts, outcomes: seq<Outcome>) {
    forall rule, o | rule in rules && o in outcomes && o.ruleId == rule.id ::
      o.matched == (rule.enabled && Conditions.Valid(rule.condition, None, 0)
                    && Conditions.Eval(rule.condition, facts) == Conditions.True)
  }

  lemma ReportsItsRule(rules: seq<Rule>, looked: seq<Rule>, test: Test, d: Decision, rule: Rule, i: nat)
    requires DistinctRules(rules) && LooksAt(rules, test, d, looked)
    requires rule in rules && i < |d.outcomes| && d.outcomes[i].ruleId == rule.id
    ensures d.outcomes[i].matched == (rule.enabled && test(rule.condition))
  {
    assert Reports(looked[i], test, d.outcomes[i]) && looked[i] in looked;
    assert rule == looked[i];
  }

  lemma FollowsJudges(rules: seq<Rule>, facts: Conditions.Facts, d: Decision)
    requires DistinctRules(rules) && Follows(rules, TestOf(facts), d)
    ensures Judges(rules, facts, d.outcomes)
  {
    var looked :| LooksAt(rules, TestOf(facts), d, looked) && ActsOn(d, looked);
    forall rule, o | rule in rules && o in d.outcomes && o.ruleId == rule.id
      ensures o.matched == (rule.enabled && TestOf(facts)(rule.condition))
    {
      var i :| 0 <= i < |d.outcomes| && d.outcomes[i] == o;
      ReportsItsRule(rules, looked, TestOf(facts), d, rule, i);
    }
  }

  method EvaluateRouting(policy: Policy, facts: Conditions.Facts) returns (d: Decision)
    ensures Decides(Sort(RuleBefore, policy.rules), TestOf(facts), d)
    ensures DistinctRules(policy.rules) ==> Follows(policy.rules, TestOf(facts), d)
    ensures DistinctRules(policy.rules) ==> Judges(policy.rules, facts, d.outcomes)
  {
    d := EvaluateOrdered(Sort(RuleBefore, policy.rules), TestOf(facts));
    if DistinctRules(policy.rules) {
      DecisionFollows(policy.rules, TestOf(facts), d);
      FollowsJudges(policy.rules, facts, d);
    }
  }

  lemma StopsEarliest(ordered: seq<Rule>, test: Test, n: nat, m: nat)
    requires StopsAfter(ordered, test, n) && StopsAfter(ordered, test, m)
    ensures n <= m
  {
    assert m < |ordered| ==> Stops(ordered[m - 1], test);
  }

  /** The stopping point, hence the whole decision, is determined by the ordered rules and the facts. */
  lemma DecisionUnique(ordered: seq<Rule>, test: Test, d: Decision, e: Decision)
    requires Decides(ordered, test, d) && Decides(ordered, test, e)
    ensures d == e
  {
    StopsEarliest(ordered, test, |d.outcomes|, |e.outcomes|);
    StopsEarliest(ordered, test, |e.outcomes|, |d.outcomes|);
    assert d.outcomes == e.outcomes;
  }

  /** Listing the rules of a policy in another order changes nothing. */
  lemma RuleOrderIrrelevant(rules: seq<Rule>, shuffled: seq<Rule>, test: Test, d: Decision, e: Decision)
    requires DistinctRules(rules) && multiset(rules) == multiset(shuffled)
    requires Decides(Sort(RuleBefore, rules), test, d) && Decides(Sort(RuleBefore, shuffled), test, e)
    ensures d == e
  {
    RuleOrder();
    DistinctRuleKeys(rules);
    SortOrderIrrelevant(RuleBefore, rules, shuffled);
    DecisionUnique(Sort(RuleBefore, rules), test, d, e);
  }
}
