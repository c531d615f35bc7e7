/** The structured-output validator: per-item verdicts, target mapping, issues and retry targets. */
module Validator {
  import opened Json
  import opened Ordering

  // ---------------------------------------------------------------- label sets

  datatype Binding = Binding(versionId: string, key: string, scope: string, negative: bool, threshold: real, order: int)

  predicate BindingBefore(a: Binding, b: Binding) {
    a.order < b.order || (a.order == b.order && StringLess(a.key, b.key))
  }

  datatype LabelSet = LabelSet(bindings: seq<Binding>)
  {
    /** `LabelSetVersion.__post_init__` */
    ghost predicate Valid() {
      && bindings != []
      && (forall i, j | 0 <= i < j < |bindings| :: bindings[i].versionId != bindings[j].versionId)
      && (forall i, j | 0 <= i < j < |bindings| :: bindings[i].key != bindings[j].key)
      && (forall i, j | 0 <= i < j < |bindings| :: bindings[i].order != bindings[j].order)
    }

    function Ordered(): (ordered: seq<Binding>)
      ensures |ordered| == |bindings|
    {
      Sort(BindingBefore, bindings)
    }

    function Keys(): (keys: seq<string>)
      ensures |keys| == |bindings|
    {
      seq(|bindings|, i requires 0 <= i < |bindings| => Ordered()[i].key)
    }
  }

  lemma BindingOrder()
    ensures KeyOrder(BindingBefore)
  {
    StringOrder();
  }

  lemma KeysDistinct(labels: LabelSet)
    requires labels.Valid()
    ensures forall i, j | 0 <= i < j < |labels.Keys()| :: labels.Keys()[i] != labels.Keys()[j]
  {
    BindingOrder();
    SortSorts(BindingBefore, labels.bindings);
    SameElements(labels.Ordered(), labels.bindings);
    NoRepeats(labels.bindings, labels.Ordered());
    var ordered := labels.Ordered();
    forall i, j | 0 <= i < j < |ordered| ensures ordered[i].key != ordered[j].key {
      assert ordered[i] in labels.bindings && ordered[j] in labels.bindings;
    }
  }

  datatype ResolvedLabel = ResolvedLabel(versionId: string, key: string, scope: string, score: real, activated: bool,
    negative: bool)

  function ResolveLabel(b: Binding, score: real): ResolvedLabel {
    ResolvedLabel(b.versionId, b.key, b.scope, score, score >= b.threshold, b.negative)
  }

  function Resolve(ordered: seq<Binding>, scores: map<string, real>): seq<ResolvedLabel> {
    if ordered == [] then []
    else
      var init, last := ordered[..|ordered| - 1], ordered[|ordered| - 1];
      Resolve(init, scores) + if last.key in scores then [ResolveLabel(last, scores[last.key])] else []
  }

  /** The label a binding gives a score: its own version, key, scope and sign, activated from its threshold on. */
  predicate LabelOf(b: Binding, score: real, l: ResolvedLabel) {
    && l.versionId == b.versionId && l.key == b.key && l.scope == b.scope && l.negative == b.negative
    && l.score == score && (l.activated <==> score >= b.threshold)
  }

  /** The resolved labels are those of the scored bindings, each once, ascending in output order. */
  ghost predicate Resolves(labels: LabelSet, scores: map<string, real>, used: seq<Binding>, r: seq<ResolvedLabel>) {
    && |used| == |r|
    && (forall b :: b in used <==> b in labels.bindings && b.key in scores)
    && (forall i, j | 0 <= i < j < |used| :: used[i].order < used[j].order)
    && (forall i | 0 <= i < |used| :: LabelOf(used[i], scores[used[i].key], r[i]))
  }

  ghost function Scored(ordered: seq<Binding>, scores: map<string, real>): seq<Binding> {
    if ordered == [] then []
    else
      var init, last := ordered[..|ordered| - 1], ordered[|ordered| - 1];
      Scored(init, scores) + if last.key in scores then [last] else []
  }

  lemma {:induction false} ResolvesOrdered(ordered: seq<Binding>, scores: map<string, real>)
    requires forall i, j | 0 <= i < j < |ordered| :: ordered[i].order < ordered[j].order
    ensures var used, r := Scored(ordered, scores), Resolve(ordered, scores);
      && |used| == |r|
      && (forall b :: b in used <==> b in ordered && b.key in scores)
      && (forall i, j | 0 <= i < j < |used| :: used[i].order < used[j].order)
      && (forall i | 0 <= i < |used| :: LabelOf(used[i], scores[used[i].key], r[i]))
  {
    if ordered != [] {
      var init, last := ordered[..|ordered| - 1], ordered[|ordered| - 1];
      ResolvesOrdered(init, scores);
      assert ordered == init + [last];
      forall b | b in Scored(init, scores) ensures b.order < last.order { assert b in init; }
    }
  }

  lemma BindingsAscend(labels: LabelSet)
    requires labels.Valid()
    ensures forall i, j | 0 <= i < j < |labels.Ordered()| :: labels.Ordered()[i].order < labels.Ordered()[j].order
    ensures forall b :: b in labels.Ordered() <==> b in labels.bindings
  {
    BindingOrder();
    var ordered := labels.Ordered();
    SortSorts(BindingBefore, labels.bindings);
    SameElements(ordered, labels.bindings);
    NoRepeats(labels.bindings, ordered);
    forall i, j | 0 <= i < j < |ordered| ensures ordered[i].order < ordered[j].order {
      assert !BindingBefore(ordered[j], ordered[i]);
      assert ordered[i] in labels.bindings && ordered[j] in labels.bindings;
    }
  }

  lemma ResolveMeans(labels: LabelSet, scores: map<string, real>)
    requires labels.Valid()
    ensures Resolves(labels, scores, Scored(labels.Ordered(), scores), Resolve(labels.Ordered(), scores))
  {
    BindingsAscend(labels);
    ResolvesOrdered(labels.Ordered(), scores);
  }

  /** `resolve_scores`: the scored labels in output order, activated from their threshold on. */
  method ResolveScores(labels: LabelSet, scores: map<string, real>) returns (resolved: seq<ResolvedLabel>)
    ensures resolved == Resolve(labels.Ordered(), scores)
    ensures labels.Valid() ==> exists used :: Resolves(labels, scores, used, resolved)
  {
    var ordered := labels.Ordered();
    resolved := [];
    for n := 0 to |ordered|
      invariant resolved == Resolve(ordered[..n], scores)
    {
      assert ordered[..n + 1][..n] == ordered[..n];
      if ordered[n].key !in scores { continue; }
      resolved := resolved + [ResolveLabel(ordered[n], scores[ordered[n].key])];
    }
    assert ordered[..|ordered|] == ordered;
    if labels.Valid() { ResolveMeans(labels, scores); }
  }

  // ---------------------------------------------------------------- policies, issues and results

  datatype OutputMode = Dense | Sparse

  datatype Policy = Policy(mode: OutputMode, includeReason: bool, includeEvidence: bool)

  datatype ExecutionMode = BatchMessages | SingleMessage | PerAsset | BatchAssets

  predicate IsBatch(mode: ExecutionMode) { mode.BatchMessages? || mode.BatchAssets? }

  function TargetField(mode: ExecutionMode): string
    requires IsBatch(mode)
  {
    if mode.BatchMessages? then "message_id" else "asset_id"
  }

  datatype IssueCode = InvalidStructuredOutput | MissingTargetResult

  datatype ErrorType =
    | ResponseNotObject | BatchEnvelopeInvalid | SingleEnvelopeInvalid
    | BatchResultNotObject | TargetIdInvalid | UnknownTargetResult | DuplicateTargetResult | MissingTarget
    | ResultFieldsInvalid | DenseScoresIncompleteOrUnknown | SparseMatchesNotArray
    | SparseMatchInvalid | SparseMatchUnknownLabel | SparseMatchDuplicateLabel | LabelScoreInvalid
    | ReasonInvalid | EvidenceInvalid
  {
    predicate OfScores() {
      || DenseScoresIncompleteOrUnknown? || SparseMatchesNotArray? || SparseMatchInvalid? || SparseMatchUnknownLabel?
      || SparseMatchDuplicateLabel? || LabelScoreInvalid?
    }

    predicate OfItem() { OfScores() || ResultFieldsInvalid? || ReasonInvalid? || EvidenceInvalid? }
  }

  datatype Issue = Issue(code: IssueCode, errorType: ErrorType, target: Option<string>)

  datatype TargetResult = TargetResult(target: string, labels: seq<ResolvedLabel>, reason: Option<string>,
    evidence: seq<string>)

  datatype Verdict = Good(result: TargetResult) | Bad(issue: Issue)

  datatype Validation = Validation(valid: seq<TargetResult>, issues: seq<Issue>, retry: seq<string>)
  {
    predicate Complete() { issues == [] && retry == [] }
  }

  function Invalid(target: string, errorType: ErrorType): Verdict {
    Bad(Issue(InvalidStructuredOutput, errorType, Some(target)))
  }

  // ---------------------------------------------------------------- one result item

  predicate IsScore(v: Json) { v.IsNumber() && 0.0 <= v.Numeric() <= 1.0 }

  function ItemFields(policy: Policy, targetField: Option<string>): set<string> {
    {if policy.mode.Dense? then "scores" else "matches"}
    + (if targetField.Some? then {targetField.value} else {})
    + (if policy.includeReason then {"reason"} else {})
    + (if policy.includeEvidence then {"evidence"} else {})
  }

  predicate DenseScores(v: Json, keys: seq<string>) {
    && v.Obj? && v.fields.Keys == (set k | k in keys)
    && forall k | k in v.fields :: IsScore(v.fields[k])
  }

  predicate IsMatch(v: Json, keys: seq<string>) {
    && v.Obj? && v.fields.Keys == {"label_key", "score"}
    && v.fields["label_key"].Str? && v.fields["label_key"].s in keys
    && IsScore(v.fields["score"])
  }

  function MatchKey(v: Json): string
    requires v.Obj? && "label_key" in v.fields && v.fields["label_key"].Str?
  {
    v.fields["label_key"].s
  }

  predicate SparseMatches(v: Json, keys: seq<string>) {
    && v.Arr?
    && (forall i | 0 <= i < |v.items| :: IsMatch(v.items[i], keys))
    && (forall i, j | 0 <= i < j < |v.items| :: MatchKey(v.items[i]) != MatchKey(v.items[j]))
  }

  predicate StringArray(v: Json) { v.Arr? && forall i | 0 <= i < |v.items| :: v.items[i].Str? }

  predicate ScoresOk(item: map<string, Json>, policy: Policy, keys: seq<string>) {
    if policy.mode.Dense? then "scores" in item && DenseScores(item["scores"], keys)
    else "matches" in item && SparseMatches(item["matches"], keys)
  }

  predicate ItemOk(item: map<string, Json>, targetField: Option<string>, policy: Policy, keys: seq<string>) {
    && item.Keys == ItemFields(policy, targetField)
    && ScoresOk(item, policy, keys)
    && (policy.includeReason ==> item["reason"].Str?)
    && (policy.includeEvidence ==> StringArray(item["evidence"]))
  }

  /** The score given to each label key of an acceptable item. */
  function ScoreTable(item: map<string, Json>, policy: Policy, keys: seq<string>): map<string, real>
    requires ScoresOk(item, policy, keys)
  {
    if policy.mode.Dense? then map k | k in item["scores"].fields :: item["scores"].fields[k].Numeric()
    else MatchTable(item["matches"].items, keys)
  }

  function MatchTable(matches: seq<Json>, keys: seq<string>): map<string, real>
    requires forall i | 0 <= i < |matches| :: IsMatch(matches[i], keys)
  {
    if matches == [] then map[]
    else
      var last := matches[|matches| - 1];
      assert IsMatch(last, keys);
      MatchTable(matches[..|matches| - 1], keys)[MatchKey(last) := last.fields["score"].Numeric()]
  }

  function StringsOf(items: seq<Json>): (strings: seq<string>)
    requires forall i | 0 <= i < |items| :: items[i].Str?
    ensures |strings| == |items|
  {
    seq(|items|, i requires 0 <= i < |items| => items[i].s)
  }

  function ItemResult(item: map<string, Json>, target: string, targetField: Option<string>, policy: Policy,
      labels: LabelSet): TargetResult
    requires ItemOk(item, targetField, policy, labels.Keys())
  {
    TargetResult(
      target,
      Resolve(labels.Ordered(), ScoreTable(item, policy, labels.Keys())),
      if policy.includeReason then Some(item["reason"].s) else None,
      if policy.includeEvidence then StringsOf(item["evidence"].items) else [])
  }

  /** What `_validate_result_item` decides: the first failing check names the issue, and no failure means the result. */
  ghost predicate Verified(
    v: Verdict, item: map<string, Json>, target: string, targetField: Option<string>, policy: Policy, labels: LabelSet)
  {
    var keys := labels.Keys();
    var fieldsOk := item.Keys == ItemFields(policy, targetField);
    var reasonOk := fieldsOk ==> policy.includeReason ==> item["reason"].Str?;
    && (v.Good? <==> ItemOk(item, targetField, policy, keys))
    && (v.Good? ==> v.result == ItemResult(item, target, targetField, policy, labels))
    && (v.Bad? ==>
          v.issue.code == InvalidStructuredOutput && v.issue.target == Some(target) && v.issue.errorType.OfItem())
    && (v.Bad? ==> (v.issue.errorType.ResultFieldsInvalid? <==> !fieldsOk))
    && (v.Bad? ==> (v.issue.errorType.OfScores() <==> fieldsOk && !ScoresOk(item, policy, keys)))
    && (v.Bad? ==> (v.issue.errorType.ReasonInvalid? <==> fieldsOk && ScoresOk(item, policy, keys) && !reasonOk))
  }

  /** A match that is not one, or that repeats a label, spoils the list. */
  lemma MatchSpoils(matches: seq<Json>, keys: seq<string>, n: nat)
    requires n < |matches|
    requires !IsMatch(matches[n], keys) || exists i ::
      0 <= i < n && IsMatch(matches[i], keys) && MatchKey(matches[i]) == MatchKey(matches[n])
    ensures !SparseMatches(Arr(matches), keys)
  {
    assert matches == Arr(matches).items;
  }

  method NormalizeMatches(matches: seq<Json>, target: string, keys: seq<string>)
      returns (error: Option<ErrorType>, scores: map<string, real>)
    ensures error.None? <==> SparseMatches(Arr(matches), keys)
    ensures error.None? ==> scores == MatchTable(matches, keys)
    ensures error.Some? ==> error.value.OfScores()
  {
    scores := map[];
    for n := 0 to |matches|
      invariant forall i | 0 <= i < n :: IsMatch(matches[i], keys)
      invariant forall i, j | 0 <= i < j < n :: MatchKey(matches[i]) != MatchKey(matches[j])
      invariant scores == MatchTable(matches[..n], keys)
      invariant forall k :: k in scores <==> exists i | 0 <= i < n :: MatchKey(matches[i]) == k
    {
      var m := matches[n];
      assert matches[..n + 1][..n] == matches[..n];
      if !IsMatch(m, keys) || MatchKey(m) in scores { MatchSpoils(matches, keys, n); }
      if !m.Obj? || m.fields.Keys != {"label_key", "score"} { return Some(SparseMatchInvalid), scores; }
      var key := m.fields["label_key"];
      if !key.Str? || key.s !in keys { return Some(SparseMatchUnknownLabel), scores; }
      if key.s in scores { return Some(SparseMatchDuplicateLabel), scores; }
      if !IsScore(m.fields["score"]) { return Some(LabelScoreInvalid), scores; }
      scores := scores[key.s := m.fields["score"].Numeric()];
    }
    assert matches[..|matches|] == matches;
    error := None;
  }

  /** The scores of an item, or the reason why they are unusable. */
  method NormalizeScores(item: map<string, Json>, target: string, policy: Policy, keys: seq<string>)
      returns (error: Option<ErrorType>, scores: map<string, real>)
    requires (if policy.mode.Dense? then "scores" else "matches") in item
    ensures error.None? <==> ScoresOk(item, policy, keys)
    ensures error.None? ==> scores == ScoreTable(item, policy, keys)
    ensures error.Some? ==> error.value.OfScores()
  {
    if policy.mode.Dense? {
      var given := item["scores"];
      if !given.Obj? || given.fields.Keys != (set k | k in keys) { return Some(DenseScoresIncompleteOrUnknown), map[]; }
      if exists k | k in given.fields :: !IsScore(given.fields[k]) { return Some(LabelScoreInvalid), map[]; }
      return None, map k | k in given.fields :: given.fields[k].Numeric();
    }
    var matches := item["matches"];
    if !matches.Arr? { return Some(SparseMatchesNotArray), map[]; }
    error, scores := NormalizeMatches(matches.items, target, keys);
  }

  method ValidateResultItem(item: map<string, Json>, target: string, targetField: Option<string>, policy: Policy,
      labels: LabelSet)
      returns (v: Verdict)
    ensures Verified(v, item, target, targetField, policy, labels)
  {
    if item.Keys != ItemFields(policy, targetField) { return Invalid(target, ResultFieldsInvalid); }
    var error, scores := NormalizeScores(item, target, policy, labels.Keys());
    if error.Some? { return Invalid(target, error.value); }
    if policy.includeReason && !item["reason"].Str? { return Invalid(target, ReasonInvalid); }
    if policy.includeEvidence && !StringArray(item["evidence"]) { return Invalid(target, EvidenceInvalid); }
    var resolved := ResolveScores(labels, scores);
    v := Good(TargetResult(
      target, resolved,
      if policy.includeReason then Some(item["reason"].s) else None,
      if policy.includeEvidence then StringsOf(item["evidence"].items) else []));
  }

  // ---------------------------------------------------------------- whole payloads

  datatype Request = Request(mode: ExecutionMode, policy: Policy, labels: LabelSet, expected: seq<string>)

  /** `_validate_expected_targets` */
  predicate ExpectedOk(expected: seq<string>) {
    && expected != []
    && (forall i | 0 <= i < |expected| :: !Blank(expected[i]))
    && (forall i, j | 0 <= i < j < |expected| :: expected[i] != expected[j])
  }

  /** The target an item of a batch names, when it is an object that names one by a string. */
  function TargetOf(item: Json, field: string): Option<string> {
    if item.Obj? && field in item.fields && item.fields[field].Str? then Some(item.fields[field].s) else None
  }

  /** The items that name target `t`, in order. */
  function Naming(items: seq<Json>, field: string, t: string): (named: seq<map<string, Json>>)
    ensures forall i | 0 <= i < |named| :: Obj(named[i]) in items && TargetOf(Obj(named[i]), field) == Some(t)
  {
    if items == [] then []
    else
      var init, last := items[..|items| - 1], items[|items| - 1];
      Naming(init, field, t) + if TargetOf(last, field) == Some(t) then [last.fields] else []
  }

  lemma {:induction false} NamingSplits(items: seq<Json>, n: nat, field: string, t: string)
    requires n <= |items|
    ensures Naming(items, field, t) == Naming(items[..n], field, t) + Naming(items[n..], field, t)
  {
    if n == |items| {
      assert items[..n] == items;
    } else {
      var init := items[..|items| - 1];
      NamingSplits(init, n, field, t);
      assert init[..n] == items[..n];
      assert items[n..][..|items[n..]| - 1] == init[n..];
    }
  }

  /** An item that names `t` is one of those `Naming` lists, with the earlier ones before it. */
  lemma NamedAt(items: seq<Json>, n: nat, field: string, t: string)
    requires n < |items| && TargetOf(items[n], field) == Some(t)
    ensures Naming(items[..n + 1], field, t) == Naming(items[..n], field, t) + [items[n].fields]
    ensures |Naming(items, field, t)| >= |Naming(items[..n + 1], field, t)|
    ensures |Naming(items, field, t)| == 1 ==>
      Naming(items, field, t) == [items[n].fields] && Naming(items[..n], field, t) == []
  {
    assert items[..n + 1][..n] == items[..n];
    NamingSplits(items, n + 1, field, t);
  }

  lemma NotNamedAt(items: seq<Json>, n: nat, field: string, t: string)
    requires n < |items| && TargetOf(items[n], field) != Some(t)
    ensures Naming(items[..n + 1], field, t) == Naming(items[..n], field, t)
  {
    assert items[..n + 1][..n] == items[..n];
  }

  /** What becomes of one item of a batch. */
  datatype Fate =
    | NotObject | NoTarget | Unknown(target: string) | Duplicate(target: string)
    | Rejected(target: string) | Accepted(target: string)

  function FateOf(item: Json, items: seq<Json>, req: Request): Fate
    requires IsBatch(req.mode)
  {
    var field := TargetField(req.mode);
    if !item.Obj? then NotObject
    else
      match TargetOf(item, field)
      case None => NoTarget
      case Some(t) =>
        if Blank(t) then NoTarget
        else if t !in req.expected then Unknown(t)
        else if |Naming(items, field, t)| > 1 then Duplicate(t)
        else if ItemOk(item.fields, Some(field), req.policy, req.labels.Keys()) then Accepted(t) else Rejected(t)
  }

  /** The result kept for `t`: the batch names it exactly once, in an acceptable item. */
  function Answer(items: seq<Json>, req: Request, t: string): Option<TargetResult>
    requires IsBatch(req.mode)
  {
    var field := TargetField(req.mode);
    var named := Naming(items, field, t);
    if |named| == 1 && ItemOk(named[0], Some(field), req.policy, req.labels.Keys())
    then Some(ItemResult(named[0], t, Some(field), req.policy, req.labels)) else None
  }

  function Answered(items: seq<Json>, req: Request, targets: seq<string>): seq<TargetResult>
    requires IsBatch(req.mode)
  {
    if targets == [] then []
    else
      var init, t := targets[..|targets| - 1], targets[|targets| - 1];
      Answered(items, req, init) + match Answer(items, req, t) case Some(r) => [r] case None => []
  }

  function Unanswered(items: seq<Json>, req: Request, targets: seq<string>): seq<string>
    requires IsBatch(req.mode)
  {
    if targets == [] then []
    else
      var init, t := targets[..|targets| - 1], targets[|targets| - 1];
      Unanswered(items, req, init) + if Answer(items, req, t).None? then [t] else []
  }

  predicate Reports(issue: Issue, fate: Fate) {
    match fate
    case NotObject => issue == Issue(InvalidStructuredOutput, BatchResultNotObject, None)
    case NoTarget => issue == Issue(InvalidStructuredOutput, TargetIdInvalid, None)
    case Unknown(t) => issue == Issue(InvalidStructuredOutput, UnknownTargetResult, Some(t))
    case Duplicate(t) => issue == Issue(InvalidStructuredOutput, DuplicateTargetResult, Some(t))
    case Rejected(t) => issue.code == InvalidStructuredOutput && issue.target == Some(t) && issue.errorType.OfItem()
    case Accepted(_) => false
  }

  function MissingIssue(t: string): Issue { Issue(MissingTargetResult, MissingTarget, Some(t)) }

  ghost predicate Reported(issues: seq<Issue>, fate: Fate) {
    exists issue :: issue in issues && Reports(issue, fate)
  }

  ghost predicate Caused(issue: Issue, fates: seq<Fate>) {
    exists fate :: fate in fates && Reports(issue, fate)
  }

  /** Everything that is not accepted has an issue, and every issue a cause. */
  ghost predicate Explained(issues: seq<Issue>, fates: seq<Fate>) {
    && (forall fate | fate in fates :: fate.Accepted? || Reported(issues, fate))
    && (forall issue | issue in issues :: Caused(issue, fates))
  }

  function Fates(items: seq<Json>, req: Request): (fates: seq<Fate>)
    requires IsBatch(req.mode)
    ensures |fates| == |items|
  {
    seq(|items|, i requires 0 <= i < |items| => FateOf(items[i], items, req))
  }

  /** What `_validate_batch` returns for the items of a well-formed envelope. */
  ghost predicate BatchVerified(v: Validation, items: seq<Json>, req: Request)
    requires IsBatch(req.mode)
  {
    && v.valid == Answered(items, req, req.expected)
    && v.retry == Unanswered(items, req, req.expected)
    && exists found ::
      && Explained(found, Fates(items, req))
      && v.issues == found + MissingIssues(items, req, req.expected)
  }

  function MissingIssues(items: seq<Json>, req: Request, targets: seq<string>): seq<Issue>
    requires IsBatch(req.mode)
  {
    if targets == [] then []
    else
      var init, t := targets[..|targets| - 1], targets[|targets| - 1];
      MissingIssues(items, req, init) + if Naming(items, TargetField(req.mode), t) == [] then [MissingIssue(t)] else []
  }

  /** The `Counter` of the targets that items name. */
  ghost predicate Counts(counts: map<string, nat>, items: seq<Json>, field: string) {
    && (forall t :: t in counts <==> Naming(items, field, t) != [])
    && (forall t :: t in counts ==> counts[t] == |Naming(items, field, t)|)
  }

  method CountTargets(items: seq<Json>, field: string) returns (counts: map<string, nat>)
    ensures Counts(counts, items, field)
  {
    counts := map[];
    for n := 0 to |items|
      invariant forall t :: t in counts <==> Naming(items[..n], field, t) != []
      invariant forall t :: t in counts ==> counts[t] == |Naming(items[..n], field, t)|
    {
      ghost var before := counts;
      var target := TargetOf(items[n], field);
      if target.Some? {
        counts := counts[target.value := 1 + if target.value in counts then counts[target.value] else 0];
      }
      forall t ensures t in counts <==> Naming(items[..n + 1], field, t) != []
               ensures t in counts ==> counts[t] == |Naming(items[..n + 1], field, t)|
      {
        assert t in before <==> Naming(items[..n], field, t) != [];
        if target == Some(t) { NamedAt(items, n, field, t); } else { NotNamedAt(items, n, field, t); }
      }
    }
    assert items[..|items|] == items;
  }

  /** What is kept once items with these fates have been seen. */
  ghost predicate Kept(kept: map<string, TargetResult>, fates: seq<Fate>, items: seq<Json>, req: Request)
    requires IsBatch(req.mode)
  {
    && (forall t :: t in kept <==> Accepted(t) in fates)
    && (forall t | t in kept :: Some(kept[t]) == Answer(items, req, t))
  }

  /** A target is accepted somewhere exactly when it is expected and has an answer. */
  lemma AcceptedMeansAnswered(items: seq<Json>, req: Request, t: string)
    requires IsBatch(req.mode) && ExpectedOk(req.expected) && t in req.expected
    ensures Accepted(t) in Fates(items, req) <==> Answer(items, req, t).Some?
  {
    var field := TargetField(req.mode);
    var named := Naming(items, field, t);
    var fates := Fates(items, req);
    if Accepted(t) in fates {
      var n :| 0 <= n < |items| && fates[n] == Accepted(t);
      NamedAt(items, n, field, t);
    }
    if Answer(items, req, t).Some? {
      assert Obj(named[0]) in items;
      var n :| 0 <= n < |items| && items[n] == Obj(named[0]);
      assert fates[n] == Accepted(t);
    }
  }

  /** The expected targets, split by what was kept. */
  lemma {:induction false} SplitByKept(kept: map<string, TargetResult>, items: seq<Json>, req: Request,
      targets: seq<string>)
    requires IsBatch(req.mode) && ExpectedOk(req.expected) && Kept(kept, Fates(items, req), items, req)
    requires forall i | 0 <= i < |targets| :: targets[i] in req.expected
    ensures Answered(items, req, targets) == KeptResults(kept, targets)
    ensures Unanswered(items, req, targets) == NotKept(kept, targets)
  {
    if targets != [] {
      var init, t := targets[..|targets| - 1], targets[|targets| - 1];
      SplitByKept(kept, items, req, init);
      AcceptedMeansAnswered(items, req, t);
    }
  }

  function KeptResults(kept: map<string, TargetResult>, targets: seq<string>): seq<TargetResult> {
    if targets == [] then []
    else
      var t := targets[|targets| - 1];
      KeptResults(kept, targets[..|targets| - 1]) + if t in kept then [kept[t]] else []
  }

  function NotKept(kept: map<string, TargetResult>, targets: seq<string>): seq<string> {
    if targets == [] then []
    else
      var t := targets[|targets| - 1];
      NotKept(kept, targets[..|targets| - 1]) + if t !in kept then [t] else []
  }

  lemma ExplainedStep(issues: seq<Issue>, more: seq<Issue>, fates: seq<Fate>, fate: Fate)
    requires Explained(issues, fates)
    requires forall issue | issue in more :: Reports(issue, fate)
    requires fate.Accepted? || more != [] || Reported(issues, fate)
    ensures Explained(issues + more, fates + [fate])
  {
    if more != [] { assert more[0] in issues + more; }
    forall f | Reported(issues, f) ensures Reported(issues + more, f) {
      var issue :| issue in issues && Reports(issue, f);
      assert issue in issues + more;
    }
    forall issue | issue in issues + more ensures Caused(issue, fates + [fate]) {
      if issue in issues {
        var f :| f in fates && Reports(issue, f);
        assert f in fates + [fate];
      } else {
        assert fate in fates + [fate];
      }
    }
  }

  /** The issue, if any, and the kept result, if any, for one item of a batch. */
  method Inspect(item: Json, items: seq<Json>, counts: map<string, nat>, issues: seq<Issue>, req: Request)
      returns (more: seq<Issue>, result: Option<TargetResult>)
    requires IsBatch(req.mode) && ExpectedOk(req.expected) && item in items
    requires Counts(counts, items, TargetField(req.mode))
    ensures forall issue | issue in more :: Reports(issue, FateOf(item, items, req))
    ensures var fate := FateOf(item, items, req);
      && (fate.Accepted? || more != [] || Reported(issues, fate))
      && (fate.Duplicate? ==>
        (more == [] <==> Issue(InvalidStructuredOutput, DuplicateTargetResult, Some(fate.target)) in issues))
      && (result.Some? <==> fate.Accepted?)
      && (fate.Accepted? ==> result == Answer(items, req, fate.target))
    ensures |more| <= 1
  {
    var field := TargetField(req.mode);
    if !item.Obj? { return [Issue(InvalidStructuredOutput, BatchResultNotObject, None)], None; }
    var target := TargetOf(item, field);
    if target.None? || Blank(target.value) { return [Issue(InvalidStructuredOutput, TargetIdInvalid, None)], None; }
    var t := target.value;
    if t !in req.expected { return [Issue(InvalidStructuredOutput, UnknownTargetResult, Some(t))], None; }
    assert t in counts && counts[t] == |Naming(items, field, t)| by {
      var n :| 0 <= n < |items| && items[n] == item;
      NamedAt(items, n, field, t);
    }
    if counts[t] > 1 {
      var issue := Issue(InvalidStructuredOutput, DuplicateTargetResult, Some(t));
      if issue in issues {
        assert Reports(issue, FateOf(item, items, req));
        return [], None;
      }
      return [issue], None;
    }
    assert Naming(items, field, t) == [item.fields] by {
      var n :| 0 <= n < |items| && items[n] == item;
      NamedAt(items, n, field, t);
    }
    var verdict := ValidateResultItem(item.fields, t, Some(field), req.policy, req.labels);
    match verdict {
      case Bad(issue) => return [issue], None;
      case Good(r) => return [], Some(r);
    }
  }

  /** One more fate: an accepted one adds its target's answer to what is kept. */
  lemma KeptStep(kept: map<string, TargetResult>, fates: seq<Fate>, fate: Fate, result: Option<TargetResult>,
      items: seq<Json>, req: Request)
    requires IsBatch(req.mode) && Kept(kept, fates, items, req) && (result.Some? <==> fate.Accepted?)
    requires fate.Accepted? ==> result == Answer(items, req, fate.target)
    ensures Kept(if fate.Accepted? then kept[fate.target := result.value] else kept, fates + [fate], items, req)
  {
    var after := if fate.Accepted? then kept[fate.target := result.value] else kept;
    forall t ensures t in after <==> Accepted(t) in fates + [fate] {
      assert Accepted(t) in fates + [fate] <==> Accepted(t) in fates || Accepted(t) == fate;
    }
  }

  lemma NextFate(items: seq<Json>, req: Request, n: nat)
    requires IsBatch(req.mode) && n < |items|
    ensures Fates(items, req)[..n + 1] == Fates(items, req)[..n] + [FateOf(items[n], items, req)]
  {
  }

  lemma AcceptedTarget(item: Json, items: seq<Json>, req: Request)
    requires IsBatch(req.mode)
    ensures var fate := FateOf(item, items, req); fate.Accepted? ==>
      TargetOf(item, TargetField(req.mode)) == Some(fate.target)
  {
  }

  method InspectAll(items: seq<Json>, counts: map<string, nat>, req: Request)
      returns (kept: map<string, TargetResult>, issues: seq<Issue>)
    requires IsBatch(req.mode) && ExpectedOk(req.expected)
    requires Counts(counts, items, TargetField(req.mode))
    ensures Kept(kept, Fates(items, req), items, req) && Explained(issues, Fates(items, req))
  {
    kept, issues := map[], [];
    ghost var fates := Fates(items, req);
    for n := 0 to |items|
      invariant Kept(kept, fates[..n], items, req)
      invariant Explained(issues, fates[..n])
    {
      var more, result := Inspect(items[n], items, counts, issues, req);
      NextFate(items, req, n);
      ExplainedStep(issues, more, fates[..n], fates[n]);
      KeptStep(kept, fates[..n], fates[n], result, items, req);
      AcceptedTarget(items[n], items, req);
      if result.Some? { kept := kept[TargetOf(items[n], TargetField(req.mode)).value := result.value]; }
      issues := issues + more;
    }
    assert fates[..|items|] == fates;
  }

  method ReportMissing(items: seq<Json>, counts: map<string, nat>, req: Request) returns (missing: seq<Issue>)
    requires IsBatch(req.mode) && Counts(counts, items, TargetField(req.mode))
    ensures missing == MissingIssues(items, req, req.expected)
  {
    missing := [];
    for n := 0 to |req.expected|
      invariant missing == MissingIssues(items, req, req.expected[..n])
    {
      var t := req.expected[n];
      assert req.expected[..n + 1][..n] == req.expected[..n];
      if t !in counts { missing := missing + [MissingIssue(t)]; }
    }
    assert req.expected[..|req.expected|] == req.expected;
  }

  method ValidateBatch(items: seq<Json>, req: Request) returns (v: Validation)
    requires IsBatch(req.mode) && ExpectedOk(req.expected)
    ensures BatchVerified(v, items, req)
  {
    var counts := CountTargets(items, TargetField(req.mode));
    var kept, issues := InspectAll(items, counts, req);
    var missing := ReportMissing(items, counts, req);
    SplitByKept(kept, items, req, req.expected);
    v := Validation(KeptResults(kept, req.expected), issues + missing, NotKept(kept, req.expected));
  }

  // ---------------------------------------------------------------- the validator as a whole

  function WholePayloadFailure(expected: seq<string>, errorType: ErrorType): Validation {
    Validation([], [Issue(InvalidStructuredOutput, errorType, None)], expected)
  }

  predicate Enveloped(payload: Json, req: Request) {
    && payload.Obj?
    && if IsBatch(req.mode) then payload.fields.Keys == {"results"} && payload.fields["results"].Arr?
       else payload.fields.Keys == {"result"} && payload.fields["result"].Obj?
  }

  function EnvelopeError(payload: Json, req: Request): ErrorType {
    if !payload.Obj? then ResponseNotObject else if IsBatch(req.mode) then BatchEnvelopeInvalid
      else SingleEnvelopeInvalid
  }

  /** What `validate` returns for expected targets it does not refuse. */
  ghost predicate Outcome(v: Validation, payload: Json, req: Request) {
    if !Enveloped(payload, req) then v == WholePayloadFailure(req.expected, EnvelopeError(payload, req))
    else if IsBatch(req.mode) then BatchVerified(v, payload.fields["results"].items, req)
    else
      |req.expected| == 1 &&
      var item, target := payload.fields["result"].fields, req.expected[0];
      exists verdict ::
        && Verified(verdict, item, target, None, req.policy, req.labels)
        && v == match verdict
                case Good(r) => Validation([r], [], [])
                case Bad(issue) => Validation([], [issue], req.expected)
  }

  // ---------------------------------------------------------------- what a result says of the payload

  predicate MatchGives(v: Json, key: string, score: real) {
    && v.Obj? && "label_key" in v.fields && v.fields["label_key"] == Str(key)
    && "score" in v.fields && v.fields["score"].IsNumber() && v.fields["score"].Numeric() == score
  }

  /** The item states this score for the label: in its table, or in one of its matches. */
  predicate Gives(item: map<string, Json>, policy: Policy, key: string, score: real) {
    if policy.mode.Dense? then
      && "scores" in item && item["scores"].Obj? && key in item["scores"].fields
      && item["scores"].fields[key].IsNumber() && item["scores"].fields[key].Numeric() == score
    else
      && "matches" in item && item["matches"].Arr?
      && exists i | 0 <= i < |item["matches"].items| :: MatchGives(item["matches"].items[i], key, score)
  }

  lemma {:induction false} MatchTableMeans(matches: seq<Json>, keys: seq<string>, key: string, score: real)
    requires SparseMatches(Arr(matches), keys)
    ensures key in MatchTable(matches, keys) && MatchTable(matches, keys)[key] == score <==>
      exists i | 0 <= i < |matches| :: MatchGives(matches[i], key, score)
    ensures key in MatchTable(matches, keys) ==>
      exists i | 0 <= i < |matches| :: IsMatch(matches[i], keys) && MatchKey(matches[i]) == key
  {
    if matches != [] {
      var n := |matches| - 1;
      MatchTableMeans(matches[..n], keys, key, score);
      assert IsMatch(matches[n], keys);
    }
  }

  lemma ScoreTableMeans(item: map<string, Json>, policy: Policy, keys: seq<string>, key: string, score: real)
    requires ScoresOk(item, policy, keys)
    ensures key in ScoreTable(item, policy, keys) && ScoreTable(item, policy, keys)[key] == score <==>
      Gives(item, policy, key, score)
  {
    if policy.mode.Sparse? { MatchTableMeans(item["matches"].items, keys, key, score); }
  }

  /**
   * The labels are those of the bindings the item scores, in output order and with exactly these scores; a label
   * without a score is left out. Reason and evidence are the item's own.
   */
  ghost predicate Reflects(r: TargetResult, item: map<string, Json>, policy: Policy, labels: LabelSet,
      used: seq<Binding>)
  {
    && |used| == |r.labels| && (forall i, j | 0 <= i < j < |used| :: used[i].order < used[j].order)
    && (forall b :: b in used <==> b in labels.bindings && exists score :: Gives(item, policy, b.key, score))
    && (forall i | 0 <= i < |used| ::
          Gives(item, policy, used[i].key, r.labels[i].score) && LabelOf(used[i], r.labels[i].score, r.labels[i]))
    && (if policy.includeReason then r.reason.Some? && "reason" in item && item["reason"] == Str(r.reason.value)
        else r.reason.None?)
    && (if policy.includeEvidence then "evidence" in item && item["evidence"].Arr?
          && |item["evidence"].items| == |r.evidence|
          && forall i | 0 <= i < |r.evidence| :: item["evidence"].items[i] == Str(r.evidence[i])
        else r.evidence == [])
  }

  lemma ItemResultReflects(item: map<string, Json>, target: string, targetField: Option<string>, policy: Policy,
      labels: LabelSet)
    requires ItemOk(item, targetField, policy, labels.Keys()) && labels.Valid()
    ensures var scores := ScoreTable(item, policy, labels.Keys());
      Reflects(ItemResult(item, target, targetField, policy, labels), item, policy, labels,
        Scored(labels.Ordered(), scores))
  {
    var scores := ScoreTable(item, policy, labels.Keys());
    ResolveMeans(labels, scores);
    forall key, score ensures key in scores && scores[key] == score <==> Gives(item, policy, key, score) {
      ScoreTableMeans(item, policy, labels.Keys(), key, score);
    }
    forall key ensures key in scores <==> exists score :: Gives(item, policy, key, score) {
      if key in scores { assert Gives(item, policy, key, scores[key]); }
    }
  }

  /** The item of the payload that answers for a target. */
  predicate AnswersFor(payload: Json, req: Request, target: string, item: map<string, Json>) {
    && payload.Obj?
    && if IsBatch(req.mode) then
         && "results" in payload.fields && payload.fields["results"].Arr?
         && Obj(item) in payload.fields["results"].items
         && TargetField(req.mode) in item && item[TargetField(req.mode)] == Str(target)
       else "result" in payload.fields && payload.fields["result"] == Obj(item) && req.expected == [target]
  }

  ghost predicate Faithful(r: TargetResult, payload: Json, req: Request) {
    exists item, used :: AnswersFor(payload, req, r.target, item) && Reflects(r, item, req.policy, req.labels, used)
  }

  lemma {:induction false} AnsweredFrom(items: seq<Json>, req: Request, targets: seq<string>, r: TargetResult)
      returns (t: string)
    requires IsBatch(req.mode) && r in Answered(items, req, targets)
    ensures t in targets && Answer(items, req, t) == Some(r)
  {
    var init, last := targets[..|targets| - 1], targets[|targets| - 1];
    if r in Answered(items, req, init) { t := AnsweredFrom(items, req, init, r); } else { t := last; }
  }

  /** Every kept result says of its target what the payload says. */
  lemma ResultsAreFaithful(v: Validation, payload: Json, req: Request, r: TargetResult)
    requires Outcome(v, payload, req) && req.labels.Valid() && r in v.valid
    ensures Faithful(r, payload, req)
  {
    var keys := req.labels.Keys();
    if IsBatch(req.mode) {
      var items, field := payload.fields["results"].items, TargetField(req.mode);
      var t := AnsweredFrom(items, req, req.expected, r);
      var item := Naming(items, field, t)[0];
      ItemResultReflects(item, t, Some(field), req.policy, req.labels);
      assert AnswersFor(payload, req, t, item);
    } else {
      var item := payload.fields["result"].fields;
      ItemResultReflects(item, r.target, None, req.policy, req.labels);
      assert AnswersFor(payload, req, r.target, item);
    }
  }

  ghost predicate AllFaithful(v: Validation, payload: Json, req: Request) {
    forall result | result in v.valid :: Faithful(result, payload, req)
  }

  lemma OutcomeIsFaithful(v: Validation, payload: Json, req: Request)
    requires Outcome(v, payload, req) && req.labels.Valid()
    ensures AllFaithful(v, payload, req)
  {
    forall result | result in v.valid ensures Faithful(result, payload, req) {
      ResultsAreFaithful(v, payload, req, result);
    }
  }

  /** `_validate_single` */
  method ValidateSingle(payload: Json, req: Request) returns (r: Result<Validation>)
    requires payload.Obj? && !IsBatch(req.mode)
    ensures r.Err? <==> |req.expected| != 1
    ensures r.Ok? ==> Outcome(r.value, payload, req)
  {
    if |req.expected| != 1 { return Err("non-batch validation requires exactly one target"); }
    if payload.fields.Keys != {"result"} || !payload.fields["result"].Obj? {
      return Ok(WholePayloadFailure(req.expected, SingleEnvelopeInvalid));
    }
    var verdict := ValidateResultItem(payload.fields["result"].fields, req.expected[0], None, req.policy, req.labels);
    match verdict {
      case Good(result) => return Ok(Validation([result], [], []));
      case Bad(issue) => return Ok(Validation([], [issue], req.expected));
    }
  }

  method Validate(payload: Json, req: Request) returns (r: Result<Validation>)
    ensures r.Err? <==> !ExpectedOk(req.expected) || (payload.Obj? && !IsBatch(req.mode) && |req.expected| != 1)
    ensures r.Ok? ==> Outcome(r.value, payload, req)
    ensures r.Ok? && req.labels.Valid() ==> AllFaithful(r.value, payload, req)
  {
    if !ExpectedOk(req.expected) {
      return Err("expected target IDs must be a non-empty tuple of unique non-blank strings");
    }
    if !payload.Obj? {
      r := Ok(WholePayloadFailure(req.expected, ResponseNotObject));
    } else if !IsBatch(req.mode) {
      r := ValidateSingle(payload, req);
    } else if payload.fields.Keys != {"results"} || !payload.fields["results"].Arr? {
      r := Ok(WholePayloadFailure(req.expected, BatchEnvelopeInvalid));
    } else {
      var v := ValidateBatch(payload.fields["results"].items, req);
      r := Ok(v);
    }
    if r.Ok? && req.labels.Valid() { OutcomeIsFaithful(r.value, payload, req); }
  }

  // ---------------------------------------------------------------- what every outcome guarantees

  function Among(targets: seq<string>, chosen: set<string>): seq<string> {
    if targets == [] then []
    else
      var t := targets[|targets| - 1];
      Among(targets[..|targets| - 1], chosen) + if t in chosen then [t] else []
  }

  function TargetsOf(results: seq<TargetResult>): (targets: seq<string>)
    ensures |targets| == |results|
  {
    seq(|results|, i requires 0 <= i < |results| => results[i].target)
  }

  lemma {:induction false} AnsweredInOrder(items: seq<Json>, req: Request, targets: seq<string>, answered: set<string>)
    requires IsBatch(req.mode)
    requires forall t | t in targets :: t in answered <==> Answer(items, req, t).Some?
    ensures TargetsOf(Answered(items, req, targets)) == Among(targets, answered)
  {
    if targets != [] { AnsweredInOrder(items, req, targets[..|targets| - 1], answered); }
  }

  lemma {:induction false} UnansweredInOrder(items: seq<Json>, req: Request, targets: seq<string>, left: set<string>)
    requires IsBatch(req.mode)
    requires forall t | t in targets :: t in left <==> Answer(items, req, t).None?
    ensures Unanswered(items, req, targets) == Among(targets, left)
  {
    if targets != [] { UnansweredInOrder(items, req, targets[..|targets| - 1], left); }
  }

  lemma {:induction false} AmongAll(targets: seq<string>, chosen: set<string>)
    ensures (forall t | t in targets :: t in chosen) ==> Among(targets, chosen) == targets
    ensures (forall t | t in targets :: t !in chosen) ==> Among(targets, chosen) == []
    ensures forall t :: t in Among(targets, chosen) <==> t in targets && t in chosen
  {
    if targets != [] { AmongAll(targets[..|targets| - 1], chosen); }
  }

  ghost predicate SplitsBy(v: Validation, expected: seq<string>, answered: set<string>) {
    && TargetsOf(v.valid) == Among(expected, answered)
    && v.retry == Among(expected, (set t | t in expected) - answered)
  }

  lemma RefusedPartition(targets: seq<string>, error: ErrorType)
    ensures SplitsBy(WholePayloadFailure(targets, error), targets, {})
  {
    AmongAll(targets, {});
    AmongAll(targets, (set t | t in targets) - {});
  }

  lemma BatchPartition(v: Validation, items: seq<Json>, req: Request) returns (answered: set<string>)
    requires IsBatch(req.mode) && BatchVerified(v, items, req)
    ensures SplitsBy(v, req.expected, answered)
  {
    answered := set t | t in req.expected && Answer(items, req, t).Some?;
    AnsweredInOrder(items, req, req.expected, answered);
    UnansweredInOrder(items, req, req.expected, (set t | t in req.expected) - answered);
  }

  lemma SinglePartition(v: Validation, target: string) returns (answered: set<string>)
    requires (v.retry == [] && |v.valid| == 1 && v.valid[0].target == target) || (v.valid == [] && v.retry == [target])
    ensures SplitsBy(v, [target], answered)
  {
    var all := set t | t in [target];
    answered := if v.valid == [] then {} else all;
    AmongAll([target], answered);
    AmongAll([target], all - answered);
    if v.valid != [] { assert v.valid == [v.valid[0]]; }
  }

  /** The results and the retry targets split the expected targets, each part in the expected order. */
  lemma ResultsAndRetriesPartition(v: Validation, payload: Json, req: Request) returns (answered: set<string>)
    requires Outcome(v, payload, req)
    ensures SplitsBy(v, req.expected, answered)
  {
    if !Enveloped(payload, req) {
      RefusedPartition(req.expected, EnvelopeError(payload, req));
      answered := {};
    } else if IsBatch(req.mode) {
      answered := BatchPartition(v, payload.fields["results"].items, req);
    } else {
      assert req.expected == [req.expected[0]];
      answered := SinglePartition(v, req.expected[0]);
    }
  }

  lemma {:induction false} MissingOnes(items: seq<Json>, req: Request, targets: seq<string>)
    requires IsBatch(req.mode)
    ensures forall issue :: issue in MissingIssues(items, req, targets) <==>
      exists t :: t in targets && Naming(items, TargetField(req.mode), t) == [] && issue == MissingIssue(t)
    ensures forall t :: t in Unanswered(items, req, targets) <==> t in targets && Answer(items, req, t).None?
  {
    if targets != [] { MissingOnes(items, req, targets[..|targets| - 1]); }
  }

  /** The fate of a named expected target without an answer. */
  lemma UnansweredFate(items: seq<Json>, req: Request, t: string) returns (n: nat)
    requires IsBatch(req.mode) && ExpectedOk(req.expected) && t in req.expected && Answer(items, req, t).None?
    requires Naming(items, TargetField(req.mode), t) != []
    ensures n < |items| && FateOf(items[n], items, req) in {Duplicate(t), Rejected(t)}
  {
    var field := TargetField(req.mode);
    var named := Naming(items, field, t);
    assert Obj(named[0]) in items;
    n :| 0 <= n < |items| && items[n] == Obj(named[0]);
    assert |named| == 1 ==> named == [items[n].fields];
  }

  /** An expected target without an answer is missing, or some item naming it is reported. */
  lemma UnansweredIsExplained(items: seq<Json>, req: Request, found: seq<Issue>, t: string)
    requires IsBatch(req.mode) && ExpectedOk(req.expected) && t in req.expected && Answer(items, req, t).None?
    requires Explained(found, Fates(items, req))
    ensures Naming(items, TargetField(req.mode), t) == [] || exists issue :: issue in found && issue.target == Some(t)
  {
    if Naming(items, TargetField(req.mode), t) != [] {
      var n := UnansweredFate(items, req, t);
      var fates := Fates(items, req);
      assert fates[n] in fates;
      assert Reported(found, fates[n]);
    }
  }

  /** Each retry target has an issue of its own, or the payload as a whole has one that names no target. */
  lemma RetriesAreExplained(v: Validation, payload: Json, req: Request, t: string)
    requires Outcome(v, payload, req) && ExpectedOk(req.expected) && t in v.retry
    ensures v.issues != []
    ensures if Enveloped(payload, req) then exists issue :: issue in v.issues && issue.target == Some(t)
      else v.issues == [Issue(InvalidStructuredOutput, EnvelopeError(payload, req), None)]
  {
    if Enveloped(payload, req) {
      if IsBatch(req.mode) {
        var items := payload.fields["results"].items;
        var found :| Explained(found, Fates(items, req)) && v.issues == found + MissingIssues(items, req, req.expected);
        MissingOnes(items, req, req.expected);
        UnansweredIsExplained(items, req, found, t);
        if Naming(items, TargetField(req.mode), t) == [] {
          assert MissingIssue(t) in MissingIssues(items, req, req.expected);
          assert MissingIssue(t) in v.issues;
        } else {
          var issue :| issue in found && issue.target == Some(t);
          assert issue in v.issues;
        }
      } else {
        assert v.issues[0].target == Some(t);
      }
    }
  }

  /** A payload the validator accepts in full: every item acceptable, every expected target named. */
  predicate PayloadComplete(payload: Json, req: Request) {
    && Enveloped(payload, req)
    && if IsBatch(req.mode) then
         var items := payload.fields["results"].items;
         && (forall i | 0 <= i < |items| :: FateOf(items[i], items, req).Accepted?)
         && (forall t | t in req.expected :: Naming(items, TargetField(req.mode), t) != [])
       else ItemOk(payload.fields["result"].fields, None, req.policy, req.labels.Keys())
  }

  lemma NoIssueMeansAccepted(found: seq<Issue>, fates: seq<Fate>)
    requires Explained(found, fates)
    ensures found == [] <==> forall i | 0 <= i < |fates| :: fates[i].Accepted?
  {
    if found == [] {
      forall i | 0 <= i < |fates| ensures fates[i].Accepted? { assert fates[i] in fates; }
    } else {
      assert Caused(found[0], fates);
    }
  }

  lemma CompleteExactly(v: Validation, payload: Json, req: Request)
    requires Outcome(v, payload, req) && ExpectedOk(req.expected)
    ensures v.Complete() <==> PayloadComplete(payload, req)
    ensures v.issues == [] ==> v.retry == []
  {
    if v.retry != [] { RetriesAreExplained(v, payload, req, v.retry[0]); }
    if Enveloped(payload, req) && IsBatch(req.mode) {
      var items := payload.fields["results"].items;
      var found :| Explained(found, Fates(items, req)) && v.issues == found + MissingIssues(items, req, req.expected);
      NoIssueMeansAccepted(found, Fates(items, req));
      NoneMissing(items, req);
      assert v.issues == [] <==> found == [] && MissingIssues(items, req, req.expected) == [];
      assert forall i | 0 <= i < |items| :: Fates(items, req)[i] == FateOf(items[i], items, req);
    }
  }

  lemma NoneMissing(items: seq<Json>, req: Request)
    requires IsBatch(req.mode)
    ensures MissingIssues(items, req, req.expected) == [] <==>
      forall t | t in req.expected :: Naming(items, TargetField(req.mode), t) != []
  {
    var missing := MissingIssues(items, req, req.expected);
    MissingOnes(items, req, req.expected);
    if missing != [] {
      assert missing[0] in missing;
    } else {
      forall t | t in req.expected ensures Naming(items, TargetField(req.mode), t) != [] {
        assert MissingIssue(t) !in missing;
      }
    }
  }
}
