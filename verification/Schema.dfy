/** The generated output schema, and its agreement with the validator. */
module Schema {
  import opened Json
  import opened JsonSchema
  import opened Ordering
  import opened Validator

  // ---------------------------------------------------------------- the builder

  /** `_validate_targets`: target IDs are stripped here, which the validator does not do. */
  function Stripped(targets: seq<string>): (stripped: seq<string>)
    ensures |stripped| == |targets|
  {
    seq(|targets|, i requires 0 <= i < |targets| => Strip(targets[i]))
  }

  predicate Distinct(targets: seq<string>) {
    forall i, j | 0 <= i < j < |targets| :: targets[i] != targets[j]
  }

  predicate TargetsOk(targets: seq<string>) {
    targets != [] && (forall i | 0 <= i < |targets| :: !Blank(targets[i])) && Distinct(Stripped(targets))
  }

  function ScoreProperties(keys: seq<string>): map<string, Json> { map k | k in keys :: ScoreSchema() }

  function MatchSchema(keys: seq<string>): Json {
    ObjectSchema(map["label_key" := EnumSchema(keys), "score" := ScoreSchema()], ["label_key", "score"])
  }

  function ScoresField(policy: Policy): string { if policy.mode.Dense? then "scores" else "matches" }

  function ScoresSchema(policy: Policy, keys: seq<string>): Json {
    if policy.mode.Dense? then ObjectSchema(ScoreProperties(keys), keys) else ArraySchema(MatchSchema(keys))
  }

  function Optionally<T>(wanted: bool, yes: T, no: T): T { if wanted then yes else no }

  function ItemProperties(policy: Policy, keys: seq<string>): map<string, Json> {
    var scored := map[ScoresField(policy) := ScoresSchema(policy, keys)];
    var reasoned := Optionally(policy.includeReason, scored["reason" := StringSchema()], scored);
    Optionally(policy.includeEvidence, reasoned["evidence" := ArraySchema(StringSchema())], reasoned)
  }

  function ItemRequired(policy: Policy): seq<string> {
    var scored := [ScoresField(policy)];
    var reasoned := Optionally(policy.includeReason, scored + ["reason"], scored);
    Optionally(policy.includeEvidence, reasoned + ["evidence"], reasoned)
  }

  /** `_result_item_schema`, as the properties and required names it fills in. */
  method ResultItemSchema(policy: Policy, keys: seq<string>)
      returns (properties: map<string, Json>, required: seq<string>)
    ensures properties == ItemProperties(policy, keys) && required == ItemRequired(policy)
  {
    if policy.mode.Dense? {
      properties, required := map["scores" := ObjectSchema(ScoreProperties(keys), keys)], ["scores"];
    } else {
      properties, required := map["matches" := ArraySchema(MatchSchema(keys))], ["matches"];
    }
    if policy.includeReason {
      properties := properties["reason" := StringSchema()];
      required := required + ["reason"];
    }
    if policy.includeEvidence {
      properties := properties["evidence" := ArraySchema(StringSchema())];
      required := required + ["evidence"];
    }
  }

  /** The schema of one result; a batch item also names its target. */
  function ItemSchema(policy: Policy, keys: seq<string>, targetField: Option<string>, targets: seq<string>): Json {
    match targetField
    case None => ObjectSchema(ItemProperties(policy, keys), ItemRequired(policy))
    case Some(field) =>
      ObjectSchema(map[field := EnumSchema(targets)] + ItemProperties(policy, keys), [field] + ItemRequired(policy))
  }

  function FieldOf(mode: ExecutionMode): Option<string> { if IsBatch(mode) then Some(TargetField(mode)) else None }

  function ModeName(mode: ExecutionMode): string {
    match mode
    case BatchMessages => "batch_messages"
    case SingleMessage => "single_message"
    case PerAsset => "per_asset"
    case BatchAssets => "batch_assets"
  }

  function Annotations(title: string, templateId: string, labelSetId: string, req: Request): map<string, Json> {
    map["$schema" := Str("https://json-schema.org/draft/2020-12/schema"),
        "title" := Str(title),
        "x-tgcurator" := Obj(map[
          "schema_version" := Int(1),
          "stage_template_version_id" := Str(templateId),
          "label_set_version_id" := Str(labelSetId),
          "execution_mode" := Str(ModeName(req.mode)),
          "structured_output_mode" := Str(if req.policy.mode.Dense? then "dense_scores" else "sparse_matches")])]
  }

  function EnvelopeField(req: Request): string { if IsBatch(req.mode) then "results" else "result" }

  function EnvelopeSchema(req: Request, targets: seq<string>): Json {
    var item := ItemSchema(req.policy, req.labels.Keys(), FieldOf(req.mode), targets);
    if IsBatch(req.mode) then BoundedArraySchema(item, |targets|) else item
  }

  function Document(req: Request, templateId: string, labelSetId: string): Json {
    var title := if IsBatch(req.mode) then "TGCuratorAnalysisBatchV1" else "TGCuratorAnalysisResultV1";
    var field := EnvelopeField(req);
    Obj(Annotations(title, templateId, labelSetId, req)
        + ObjectFields(map[field := EnvelopeSchema(req, Stripped(req.expected))], [field]))
  }

  /** A document names what it was built for. */
  predicate Names(named: Json, templateId: string, labelSetId: string, mode: string, output: string) {
    && named.Obj?
    && named.fields.Keys == {"schema_version", "stage_template_version_id", "label_set_version_id", "execution_mode",
                             "structured_output_mode"}
    && named.fields["schema_version"] == Int(1) && named.fields["stage_template_version_id"] == Str(templateId)
    && named.fields["label_set_version_id"] == Str(labelSetId)
    && named.fields["execution_mode"] == Str(mode) && named.fields["structured_output_mode"] == Str(output)
  }

  lemma DocumentNames(req: Request, templateId: string, labelSetId: string)
    ensures var document := Document(req, templateId, labelSetId);
      && document.Obj? && "x-tgcurator" in document.fields
      && Names(document.fields["x-tgcurator"], templateId, labelSetId, ModeName(req.mode),
               if req.policy.mode == Dense then "dense_scores" else "sparse_matches")
  {
  }

  /** So documents for different stages or modes are different. */
  lemma DocumentsTellApart(req: Request, templateId: string, labelSetId: string, other: Request, otherTemplate: string,
      otherSet: string)
    requires Document(req, templateId, labelSetId) == Document(other, otherTemplate, otherSet)
    ensures templateId == otherTemplate && labelSetId == otherSet
    ensures req.mode == other.mode && req.policy.mode == other.policy.mode
  {
    DocumentNames(req, templateId, labelSetId);
    DocumentNames(other, otherTemplate, otherSet);
    if req.mode != other.mode { NamesDiffer(req.mode, other.mode); }
    assert "dense_scores"[0] != "sparse_matches"[0];
  }

  lemma NamesDiffer(a: ExecutionMode, b: ExecutionMode)
    requires a != b
    ensures ModeName(a) != ModeName(b)
  {
    assert ModeName(BatchMessages)[0] == 'b' && ModeName(SingleMessage)[0] == 's';
  }

  /** The builder and the validator are given the same inputs, and neither refuses them. */
  predicate Buildable(req: Request, templateId: string) {
    !Blank(templateId) && TargetsOk(req.expected) && (IsBatch(req.mode) || |req.expected| == 1)
  }

  predicate Distinguishable(targets: seq<string>) {
    forall i, j | 0 <= i < j < |targets| :: Strip(targets[i]) != Strip(targets[j])
  }

  /** A document is built exactly for a named template and named targets that stay apart without surrounding space. */
  lemma BuildableExactly(req: Request, templateId: string)
    ensures Buildable(req, templateId) <==>
      && !Blank(templateId) && req.expected != [] && (!IsBatch(req.mode) ==> |req.expected| == 1)
      && (forall i | 0 <= i < |req.expected| :: !Blank(req.expected[i])) && Distinguishable(req.expected)
  {
    var stripped := Stripped(req.expected);
    assert forall i | 0 <= i < |stripped| :: stripped[i] == Strip(req.expected[i]);
  }

  method Build(req: Request, templateId: string, labelSetId: string) returns (r: Result<Json>)
    ensures r.Ok? <==> Buildable(req, templateId)
    ensures r.Ok? ==> r.value == Document(req, templateId, labelSetId)
  {
    if Blank(templateId) { return Err("stage template version_id must not be blank"); }
    if !TargetsOk(req.expected) { return Err("expected target IDs must be non-blank and unique"); }
    var targets := Stripped(req.expected);
    var properties, required := ResultItemSchema(req.policy, req.labels.Keys());
    if IsBatch(req.mode) {
      var field := TargetField(req.mode);
      properties := map[field := EnumSchema(targets)] + properties;
      required := [field] + required;
      var results := BoundedArraySchema(ObjectSchema(properties, required), |targets|);
      return Ok(Obj(Annotations("TGCuratorAnalysisBatchV1", templateId, labelSetId, req)
        + ObjectFields(map["results" := results], ["results"])));
    }
    if |targets| != 1 { return Err("non-batch execution requires exactly one target"); }
    var result := ObjectSchema(properties, required);
    r := Ok(Obj(Annotations("TGCuratorAnalysisResultV1", templateId, labelSetId, req)
      + ObjectFields(map["result" := result], ["result"])));
  }

  // ---------------------------------------------------------------- one level at a time

  lemma DenseMeaning(keys: seq<string>, v: Json)
    ensures Validates(ObjectSchema(ScoreProperties(keys), keys), v) <==> DenseScores(v, keys)
  {
    var properties := ScoreProperties(keys);
    ObjectMeaning(properties, keys, v);
    assert properties.Keys == (set k | k in keys);
    if v.Obj? && v.fields.Keys == properties.Keys {
      forall k | k in properties ensures Validates(properties[k], v.fields[k]) <==> IsScore(v.fields[k]) {
        ScoreMeaning(v.fields[k]);
      }
    }
  }

  lemma MatchMeaning(keys: seq<string>, v: Json)
    ensures Validates(MatchSchema(keys), v) <==> IsMatch(v, keys)
  {
    var properties := map["label_key" := EnumSchema(keys), "score" := ScoreSchema()];
    ObjectMeaning(properties, ["label_key", "score"], v);
    assert properties.Keys == {"label_key", "score"};
    if v.Obj? && v.fields.Keys == properties.Keys {
      EnumMeaning(keys, v.fields["label_key"]);
      ScoreMeaning(v.fields["score"]);
    }
  }

  predicate NoRepeat(matches: seq<Json>) {
    forall i, j | 0 <= i < j < |matches| ::
      TargetOf(matches[i], "label_key").None? || TargetOf(matches[i], "label_key") != TargetOf(matches[j], "label_key")
  }

  lemma SparseMeaning(keys: seq<string>, v: Json)
    ensures Validates(ArraySchema(MatchSchema(keys)), v) && (v.Arr? ==> NoRepeat(v.items)) <==> SparseMatches(v, keys)
  {
    ArrayMeaning(MatchSchema(keys), v);
    if v.Arr? {
      forall i | 0 <= i < |v.items| ensures Validates(MatchSchema(keys), v.items[i]) <==> IsMatch(v.items[i], keys) {
        MatchMeaning(keys, v.items[i]);
      }
      forall i | 0 <= i < |v.items| && IsMatch(v.items[i], keys)
        ensures TargetOf(v.items[i], "label_key") == Some(MatchKey(v.items[i])) {}
    }
  }

  lemma EvidenceMeaning(v: Json)
    ensures Validates(ArraySchema(StringSchema()), v) <==> StringArray(v)
  {
    ArrayMeaning(StringSchema(), v);
    if v.Arr? {
      forall i | 0 <= i < |v.items| ensures Validates(StringSchema(), v.items[i]) <==> v.items[i].Str? {
        StringMeaning(v.items[i]);
      }
    }
  }

  lemma PropertiesOfItem(policy: Policy, keys: seq<string>)
    ensures var properties := ItemProperties(policy, keys);
      && properties.Keys == ItemFields(policy, None)
      && (forall k :: k in properties <==> k in ItemRequired(policy))
      && properties[ScoresField(policy)] == ScoresSchema(policy, keys)
      && (policy.includeReason ==> properties["reason"] == StringSchema())
      && (policy.includeEvidence ==> properties["evidence"] == ArraySchema(StringSchema()))
  {
  }

  /** No object of a sparse item's match list repeats a label. */
  predicate LabelsOnce(item: Json, policy: Policy) {
    policy.mode.Sparse? && item.Obj? && "matches" in item.fields && item.fields["matches"].Arr? ==>
      NoRepeat(item.fields["matches"].items)
  }

  lemma ScoresAgree(item: map<string, Json>, policy: Policy, keys: seq<string>)
    requires ScoresField(policy) in item
    ensures Validates(ScoresSchema(policy, keys), item[ScoresField(policy)]) && LabelsOnce(Obj(item), policy) <==>
      ScoresOk(item, policy, keys)
  {
    if policy.mode.Dense? { DenseMeaning(keys, item["scores"]); } else { SparseMeaning(keys, item["matches"]); }
  }

  /** The fields every item has, target aside: schema and validator agree on them. */
  lemma FieldsAgree(item: map<string, Json>, policy: Policy, keys: seq<string>)
    requires ItemFields(policy, None) <= item.Keys
    ensures
      var properties := ItemProperties(policy, keys);
      properties.Keys == ItemFields(policy, None) &&
      ((forall k | k in properties :: Validates(properties[k], item[k])) && LabelsOnce(Obj(item), policy) <==>
        && ScoresOk(item, policy, keys)
        && (policy.includeReason ==> item["reason"].Str?)
        && (policy.includeEvidence ==> StringArray(item["evidence"])))
  {
    PropertiesOfItem(policy, keys);
    ScoresAgree(item, policy, keys);
    if policy.includeReason { StringMeaning(item["reason"]); }
    if policy.includeEvidence { EvidenceMeaning(item["evidence"]); }
    var properties := ItemProperties(policy, keys);
    assert forall k | k in properties ::
      k == ScoresField(policy) || (policy.includeReason && k == "reason")
        || (policy.includeEvidence && k == "evidence");
  }

  lemma SingleItemAgrees(v: Json, policy: Policy, keys: seq<string>)
    ensures Validates(ItemSchema(policy, keys, None, []), v) && LabelsOnce(v, policy) <==>
      v.Obj? && ItemOk(v.fields, None, policy, keys)
  {
    PropertiesOfItem(policy, keys);
    ObjectMeaning(ItemProperties(policy, keys), ItemRequired(policy), v);
    if v.Obj? && v.fields.Keys == ItemFields(policy, None) { FieldsAgree(v.fields, policy, keys); }
  }

  lemma FieldsWithTarget(policy: Policy, field: string)
    requires field in {"message_id", "asset_id"}
    ensures field !in ItemFields(policy, None) && ItemFields(policy, Some(field)) == {field} + ItemFields(policy, None)
  {
  }

  /** Requiring one more property asks for that property besides the others. */
  lemma OneMoreProperty(field: string, schema: Json, others: map<string, Json>, required: seq<string>, v: Json)
    requires field !in others && forall k :: k in others <==> k in required
    ensures Validates(ObjectSchema(map[field := schema] + others, [field] + required), v) <==>
      && v.Obj? && v.fields.Keys == {field} + others.Keys
      && Validates(schema, v.fields[field]) && forall k | k in others :: Validates(others[k], v.fields[k])
  {
    var properties := map[field := schema] + others;
    ObjectMeaning(properties, [field] + required, v);
    assert properties[field] == schema && forall k | k in others :: k in properties && properties[k] == others[k];
  }

  lemma BatchItemAgrees(v: Json, policy: Policy, keys: seq<string>, field: string, targets: seq<string>)
    requires field in {"message_id", "asset_id"}
    ensures Validates(ItemSchema(policy, keys, Some(field), targets), v) && LabelsOnce(v, policy) <==>
      && v.Obj? && ItemOk(v.fields, Some(field), policy, keys)
      && TargetOf(v, field).Some? && TargetOf(v, field).value in targets
  {
    PropertiesOfItem(policy, keys);
    FieldsWithTarget(policy, field);
    OneMoreProperty(field, EnumSchema(targets), ItemProperties(policy, keys), ItemRequired(policy), v);
    if v.Obj? && v.fields.Keys == ItemFields(policy, Some(field)) {
      EnumMeaning(targets, v.fields[field]);
      FieldsAgree(v.fields, policy, keys);
    }
  }

  // ---------------------------------------------------------------- whole documents

  lemma AnnotationsAreNoKeywords(title: string, templateId: string, labelSetId: string, req: Request)
    ensures Annotations(title, templateId, labelSetId, req).Keys !! KEYWORDS
  {
    assert Annotations(title, templateId, labelSetId, req).Keys == {"$schema", "title", "x-tgcurator"};
  }

  lemma EnvelopeMeaning(annotations: map<string, Json>, field: string, schema: Json, payload: Json)
    requires annotations.Keys !! KEYWORDS
    ensures Validates(Obj(annotations + ObjectFields(map[field := schema], [field])), payload) <==>
      payload.Obj? && payload.fields.Keys == {field} && Validates(schema, payload.fields[field])
  {
    AnnotationsIgnored(ObjectFields(map[field := schema], [field]), annotations, payload);
    ObjectMeaning(map[field := schema], [field], payload);
  }

  lemma DocumentMeaning(req: Request, templateId: string, labelSetId: string, payload: Json)
    ensures Validates(Document(req, templateId, labelSetId), payload) <==>
      && payload.Obj? && payload.fields.Keys == {EnvelopeField(req)}
      && Validates(EnvelopeSchema(req, Stripped(req.expected)), payload.fields[EnvelopeField(req)])
  {
    var title := if IsBatch(req.mode) then "TGCuratorAnalysisBatchV1" else "TGCuratorAnalysisResultV1";
    AnnotationsAreNoKeywords(title, templateId, labelSetId, req);
    EnvelopeMeaning(Annotations(title, templateId, labelSetId, req), EnvelopeField(req),
      EnvelopeSchema(req, Stripped(req.expected)), payload);
  }

  /** The conditions the schema language cannot state: every target answered, no label repeated in an item. */
  predicate Extras(payload: Json, req: Request) {
    if IsBatch(req.mode) then
      payload.Obj? && "results" in payload.fields && payload.fields["results"].Arr? ==>
        var items := payload.fields["results"].items;
        && (forall t | t in req.expected :: Naming(items, TargetField(req.mode), t) != [])
        && (forall i | 0 <= i < |items| :: LabelsOnce(items[i], req.policy))
    else payload.Obj? && "result" in payload.fields ==> LabelsOnce(payload.fields["result"], req.policy)
  }

  /** For one target the two descriptions agree outright. */
  lemma SingleAgrees(payload: Json, req: Request, templateId: string, labelSetId: string)
    requires !IsBatch(req.mode)
    ensures PayloadComplete(payload, req) <==>
      Validates(Document(req, templateId, labelSetId), payload) && Extras(payload, req)
  {
    DocumentMeaning(req, templateId, labelSetId, payload);
    if payload.Obj? && payload.fields.Keys == {"result"} {
      SingleItemAgrees(payload.fields["result"], req.policy, req.labels.Keys());
    }
  }

  // ---------------------------------------------------------------- batches: the pigeonhole

  function NamedTargets(items: seq<Json>, field: string): (targets: seq<string>)
    requires forall i | 0 <= i < |items| :: TargetOf(items[i], field).Some?
    ensures |targets| == |items|
  {
    seq(|items|, i requires 0 <= i < |items| => TargetOf(items[i], field).value)
  }

  lemma {:induction false} SetOfSeq(s: seq<string>)
    ensures |set x | x in s| <= |s|
    ensures |set x | x in s| == |s| <==> Distinct(s)
  {
    if s != [] {
      var init, last := s[..|s| - 1], s[|s| - 1];
      SetOfSeq(init);
      assert (set x | x in s) == (set x | x in init) + {last};
      if last in init { assert (set x | x in s) == (set x | x in init); }
    }
  }

  /** At most as many names as targets, each target named: no target is named twice. */
  lemma NamesAreDistinct(named: seq<string>, targets: seq<string>)
    requires Distinct(targets) && forall t | t in targets :: t in named
    ensures |named| <= |targets| ==> Distinct(named) && forall t | t in named :: t in targets
  {
    var names, wanted := set t | t in named, set t | t in targets;
    SetOfSeq(named);
    SetOfSeq(targets);
    assert wanted <= names;
    SubsetCount(wanted, names);
    forall t | |named| <= |targets| && t in named ensures t in targets { assert t in wanted; }
  }

  /** Distinct names drawn from the targets are no more than the targets. */
  lemma DistinctNamesFit(named: seq<string>, targets: seq<string>)
    requires Distinct(named) && forall t | t in named :: t in targets
    ensures |named| <= |targets|
  {
    var names, wanted := set t | t in named, set t | t in targets;
    SetOfSeq(named);
    SetOfSeq(targets);
    assert names <= wanted;
    SubsetCount(names, wanted);
  }

  lemma {:induction false} NamedOnce(items: seq<Json>, field: string, t: string)
    requires forall i | 0 <= i < |items| :: TargetOf(items[i], field).Some?
    ensures Naming(items, field, t) != [] <==> t in NamedTargets(items, field)
    ensures Distinct(NamedTargets(items, field)) ==> |Naming(items, field, t)| <= 1
  {
    if items != [] {
      var init, last := items[..|items| - 1], TargetOf(items[|items| - 1], field).value;
      var before, all := NamedTargets(init, field), NamedTargets(items, field);
      NamedOnce(init, field, t);
      assert all == before + [last];
      assert forall i | 0 <= i < |before| :: all[i] == before[i];
      assert all[|before|] == last;
    }
  }

  lemma NamedTwice(items: seq<Json>, field: string, i: nat, j: nat)
    requires forall k | 0 <= k < |items| :: TargetOf(items[k], field).Some?
    requires i < j < |items| && TargetOf(items[i], field) == TargetOf(items[j], field)
    ensures |Naming(items, field, TargetOf(items[i], field).value)| > 1
  {
    var t := TargetOf(items[i], field).value;
    NamedAt(items, j, field, t);
    NamedAt(items[..j], i, field, t);
  }

  /** An item acceptable by itself and naming an expected target. */
  predicate ItemGood(item: Json, req: Request)
    requires IsBatch(req.mode)
  {
    var field := TargetField(req.mode);
    && item.Obj? && ItemOk(item.fields, Some(field), req.policy, req.labels.Keys())
    && TargetOf(item, field).Some? && TargetOf(item, field).value in req.expected
  }

  lemma AcceptedMeansGood(items: seq<Json>, req: Request, i: nat)
    requires IsBatch(req.mode) && ExpectedOk(req.expected) && i < |items|
    ensures FateOf(items[i], items, req).Accepted? <==>
      ItemGood(items[i], req)
        && |Naming(items, TargetField(req.mode), TargetOf(items[i], TargetField(req.mode)).value)| <= 1
  {
  }

  ghost predicate AllAccepted(items: seq<Json>, req: Request)
    requires IsBatch(req.mode)
  {
    forall i | 0 <= i < |items| :: FateOf(items[i], items, req).Accepted?
  }

  ghost predicate AllGood(items: seq<Json>, req: Request)
    requires IsBatch(req.mode)
  {
    forall i | 0 <= i < |items| :: ItemGood(items[i], req)
  }

  ghost predicate AllNamed(items: seq<Json>, req: Request)
    requires IsBatch(req.mode)
  {
    forall t | t in req.expected :: Naming(items, TargetField(req.mode), t) != []
  }

  /** Good items are all accepted exactly when no two name the same target. */
  lemma AcceptedWhenDistinct(items: seq<Json>, req: Request)
    requires IsBatch(req.mode) && ExpectedOk(req.expected) && AllGood(items, req)
    ensures AllAccepted(items, req) <==> Distinct(NamedTargets(items, TargetField(req.mode)))
  {
    var field := TargetField(req.mode);
    var named := NamedTargets(items, field);
    if Distinct(named) {
      forall i | 0 <= i < |items| ensures FateOf(items[i], items, req).Accepted? {
        NamedOnce(items, field, named[i]);
        AcceptedMeansGood(items, req, i);
      }
    } else {
      var i, j :| 0 <= i < j < |named| && named[i] == named[j];
      NamedTwice(items, field, i, j);
      AcceptedMeansGood(items, req, i);
    }
  }

  /** All items accepted and all targets named: good items, no more of them than targets, and all targets named. */
  lemma Pigeonhole(items: seq<Json>, req: Request)
    requires IsBatch(req.mode) && ExpectedOk(req.expected) && AllNamed(items, req)
    ensures AllAccepted(items, req) <==> |items| <= |req.expected| && AllGood(items, req)
  {
    if AllGood(items, req) {
      var field := TargetField(req.mode);
      var named := NamedTargets(items, field);
      AcceptedWhenDistinct(items, req);
      forall t | t in req.expected ensures t in named { NamedOnce(items, field, t); }
      NamesAreDistinct(named, req.expected);
      if Distinct(named) { DistinctNamesFit(named, req.expected); }
    } else {
      var i :| 0 <= i < |items| && !ItemGood(items[i], req);
      AcceptedMeansGood(items, req, i);
    }
  }

  ghost predicate AllConform(items: seq<Json>, req: Request, targets: seq<string>)
    requires IsBatch(req.mode)
  {
    forall i | 0 <= i < |items| ::
      Validates(ItemSchema(req.policy, req.labels.Keys(), FieldOf(req.mode), targets), items[i])
  }

  ghost predicate AllOnce(items: seq<Json>, req: Request) {
    forall i | 0 <= i < |items| :: LabelsOnce(items[i], req.policy)
  }

  lemma BatchItemsAgree(items: seq<Json>, req: Request)
    requires IsBatch(req.mode)
    ensures AllConform(items, req, req.expected) && AllOnce(items, req) <==> AllGood(items, req)
  {
    forall i | 0 <= i < |items|
      ensures
        Validates(ItemSchema(req.policy, req.labels.Keys(), FieldOf(req.mode), req.expected), items[i]) &&
        LabelsOnce(items[i], req.policy) <==>
          ItemGood(items[i], req)
    {
      BatchItemAgrees(items[i], req.policy, req.labels.Keys(), TargetField(req.mode), req.expected);
    }
  }

  lemma BatchDocumentMeaning(req: Request, templateId: string, labelSetId: string, payload: Json)
    requires IsBatch(req.mode)
    ensures Validates(Document(req, templateId, labelSetId), payload) <==>
      && Enveloped(payload, req)
      && |payload.fields["results"].items| <= |req.expected|
      && AllConform(payload.fields["results"].items, req, Stripped(req.expected))
  {
    DocumentMeaning(req, templateId, labelSetId, payload);
    if payload.Obj? && payload.fields.Keys == {"results"} {
      var targets := Stripped(req.expected);
      BoundedArrayMeaning(ItemSchema(req.policy, req.labels.Keys(), FieldOf(req.mode), targets), |targets|,
        payload.fields["results"]);
    }
  }

  /** The payload is complete for the validator exactly when it satisfies the schema and the conditions beyond it. */
  ghost predicate Agrees(payload: Json, req: Request, templateId: string, labelSetId: string) {
    PayloadComplete(payload, req) <==> Validates(Document(req, templateId, labelSetId), payload) && Extras(payload, req)
  }

  /** With stripped target IDs the two descriptions of a batch agree. */
  lemma BatchAgrees(payload: Json, req: Request, templateId: string, labelSetId: string)
    requires IsBatch(req.mode) && ExpectedOk(req.expected) && Stripped(req.expected) == req.expected
    ensures Agrees(payload, req, templateId, labelSetId)
  {
    BatchDocumentMeaning(req, templateId, labelSetId, payload);
    if Enveloped(payload, req) {
      var items := payload.fields["results"].items;
      BatchItemsAgree(items, req);
      if AllNamed(items, req) { Pigeonhole(items, req); }
      assert PayloadComplete(payload, req) <==> AllAccepted(items, req) && AllNamed(items, req);
      assert Extras(payload, req) <==> AllNamed(items, req) && AllOnce(items, req);
    }
  }

  // ---------------------------------------------------------------- batches whose target IDs are not stripped

  function WitnessItem(req: Request, t: string): map<string, Json>
    requires IsBatch(req.mode)
  {
    map[TargetField(req.mode) := Str(t)]
    + (if req.policy.mode.Dense? then map["scores" := Obj(map k | k in req.labels.Keys() :: Int(0))]
      else map["matches" := Arr([])])
    + (if req.policy.includeReason then map["reason" := Str("")] else map[])
    + (if req.policy.includeEvidence then map["evidence" := Arr([])] else map[])
  }

  lemma WitnessIsGood(req: Request, t: string)
    requires IsBatch(req.mode) && t in req.expected
    ensures ItemGood(Obj(WitnessItem(req, t)), req)
    ensures TargetOf(Obj(WitnessItem(req, t)), TargetField(req.mode)) == Some(t)
  {
  }

  function WitnessItems(req: Request): (items: seq<Json>)
    requires IsBatch(req.mode)
    ensures |items| == |req.expected|
  {
    seq(|req.expected|, i requires 0 <= i < |req.expected| => Obj(WitnessItem(req, req.expected[i])))
  }

  /** One good item for each expected target makes a complete payload. */
  lemma WitnessIsComplete(req: Request)
    requires IsBatch(req.mode) && ExpectedOk(req.expected)
    ensures PayloadComplete(Obj(map["results" := Arr(WitnessItems(req))]), req)
  {
    var items, field := WitnessItems(req), TargetField(req.mode);
    forall i | 0 <= i < |items| ensures ItemGood(items[i], req) && TargetOf(items[i], field) == Some(req.expected[i]) {
      WitnessIsGood(req, req.expected[i]);
    }
    assert NamedTargets(items, field) == req.expected;
    forall t | t in req.expected ensures Naming(items, field, t) != [] { NamedOnce(items, field, t); }
    Pigeonhole(items, req);
  }

  lemma UnstrippedIsNotListed(targets: seq<string>, i: nat)
    requires i < |targets| && Strip(targets[i]) != targets[i]
    ensures targets[i] !in Stripped(targets)
  {
    forall j | 0 <= j < |targets| ensures Stripped(targets)[j] != targets[i] { StripIdempotent(targets[j]); }
  }

  function WitnessPayload(req: Request): Json
    requires IsBatch(req.mode)
  {
    Obj(map["results" := Arr(WitnessItems(req))])
  }

  lemma WitnessDoesNotConform(req: Request, i: nat)
    requires IsBatch(req.mode) && i < |req.expected| && Strip(req.expected[i]) != req.expected[i]
    ensures !(AllConform(WitnessItems(req), req, Stripped(req.expected)) && AllOnce(WitnessItems(req), req))
  {
    var items, targets := WitnessItems(req), Stripped(req.expected);
    WitnessIsGood(req, req.expected[i]);
    UnstrippedIsNotListed(req.expected, i);
    BatchItemAgrees(items[i], req.policy, req.labels.Keys(), TargetField(req.mode), targets);
  }

  /** An unstripped target ID makes a complete payload that the schema refuses. */
  lemma UnstrippedDisagrees(req: Request, templateId: string, labelSetId: string, i: nat)
    requires IsBatch(req.mode) && ExpectedOk(req.expected) && i < |req.expected|
    requires Strip(req.expected[i]) != req.expected[i]
    ensures !Agrees(WitnessPayload(req), req, templateId, labelSetId)
  {
    WitnessIsComplete(req);
    WitnessDoesNotConform(req, i);
    BatchDocumentMeaning(req, templateId, labelSetId, WitnessPayload(req));
    assert WitnessPayload(req).fields["results"].items == WitnessItems(req);
  }

  /**
   * What the validator returned for the payload is complete exactly when
   * the payload satisfies the schema and the rest.
   */
  ghost predicate VerdictAgrees(v: Validation, payload: Json, req: Request, templateId: string, labelSetId: string) {
    v.Complete() <==> Validates(Document(req, templateId, labelSetId), payload) && Extras(payload, req)
  }

  lemma WitnessHasNoIssue(req: Request)
    requires IsBatch(req.mode) && ExpectedOk(req.expected)
    ensures Explained([], Fates(WitnessItems(req), req)) && MissingIssues(WitnessItems(req), req, req.expected) == []
  {
    var items := WitnessItems(req);
    WitnessIsComplete(req);
    assert WitnessPayload(req).fields["results"].items == items;
    NoneMissing(items, req);
    forall fate | fate in Fates(items, req) ensures fate.Accepted? {
      var i :| 0 <= i < |items| && Fates(items, req)[i] == fate;
      assert FateOf(items[i], items, req).Accepted?;
    }
  }

  /** The one verdict on the witness: every target answered, nothing to report. */
  lemma WitnessVerdict(req: Request) returns (v: Validation)
    requires IsBatch(req.mode) && ExpectedOk(req.expected)
    ensures Outcome(v, WitnessPayload(req), req) && v.Complete()
  {
    var items := WitnessItems(req);
    v := Validation(Answered(items, req, req.expected), [], Unanswered(items, req, req.expected));
    WitnessHasNoIssue(req);
    assert WitnessPayload(req).fields["results"].items == items;
    assert v.issues == [] + MissingIssues(items, req, req.expected);
    WitnessIsComplete(req);
    CompleteExactly(v, WitnessPayload(req), req);
  }

  /** For a batch, schema and validator agree on every payload exactly when every target ID is stripped already. */
  lemma BatchAgreementExactly(req: Request, templateId: string, labelSetId: string)
    requires IsBatch(req.mode) && ExpectedOk(req.expected)
    ensures (forall v, payload | Outcome(v, payload, req) :: VerdictAgrees(v, payload, req, templateId, labelSetId))
      <==> (forall t | t in req.expected :: Strip(t) == t)
  {
    if forall t | t in req.expected :: Strip(t) == t {
      assert Stripped(req.expected) == req.expected;
      forall v, payload | Outcome(v, payload, req) ensures VerdictAgrees(v, payload, req, templateId, labelSetId) {
        BatchAgrees(payload, req, templateId, labelSetId);
        CompleteExactly(v, payload, req);
      }
    } else {
      var i :| 0 <= i < |req.expected| && Strip(req.expected[i]) != req.expected[i];
      UnstrippedDisagrees(req, templateId, labelSetId, i);
      WitnessIsComplete(req);
      var v := WitnessVerdict(req);
      assert !VerdictAgrees(v, WitnessPayload(req), req, templateId, labelSetId);
    }
  }

  /** For one target they agree on every payload. */
  lemma SingleVerdictAgrees(v: Validation, payload: Json, req: Request, templateId: string, labelSetId: string)
    requires !IsBatch(req.mode) && ExpectedOk(req.expected) && Outcome(v, payload, req)
    ensures VerdictAgrees(v, payload, req, templateId, labelSetId)
  {
    SingleAgrees(payload, req, templateId, labelSetId);
    CompleteExactly(v, payload, req);
  }
}
