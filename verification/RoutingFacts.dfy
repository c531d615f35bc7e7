/** The facts object a routing policy reads, and what label conditions mean on it. */
module RoutingFacts {
  import opened Json
  import opened Labels
  import C = Conditions

  function LabelJson(v: LabelValue): Json {
    Obj(map[
      "label_definition_version_id" := Str(v.definition), "score" := Float(v.score), "activated" := Bool(v.activated)])
  }

  /** Where a label is stored: global labels share one table, media labels have one for each asset. */
  datatype Slot = GlobalSlot(key: string) | MediaSlot(asset: string, key: string)

  function SlotOf(v: LabelValue): Slot {
    if v.target.scope == "global" then GlobalSlot(v.key) else MediaSlot(v.target.id, v.key)
  }

  ghost predicate Unambiguous(values: seq<LabelValue>) {
    forall i, j | 0 <= i < j < |values| :: SlotOf(values[i]) != SlotOf(values[j])
  }

  function FindLabel(values: seq<LabelValue>, slot: Slot): Option<LabelValue> {
    if values == [] then None
    else
      var last := values[|values| - 1];
      if SlotOf(last) == slot then Some(last) else FindLabel(values[..|values| - 1], slot)
  }

  predicate HasAsset(values: seq<LabelValue>, asset: string) {
    values != [] &&
    var last := values[|values| - 1];
    (last.target.scope != "global" && last.target.id == asset) || HasAsset(values[..|values| - 1], asset)
  }

  type Table = map<string, Json>

  function Stored(found: Option<LabelValue>): Option<Json> {
    if found.Some? then Some(LabelJson(found.value)) else None
  }

  function Lookup(table: Table, key: string): Option<Json> {
    if key in table then Some(table[key]) else None
  }

  ghost predicate StoresGlobal(values: seq<LabelValue>, table: Table) {
    forall k :: Lookup(table, k) == Stored(FindLabel(values, GlobalSlot(k)))
  }

  ghost predicate StoresMedia(values: seq<LabelValue>, assets: map<string, Table>) {
    && (forall a :: a in assets <==> HasAsset(values, a))
    && (forall a, k | a in assets :: Lookup(assets[a], k) == Stored(FindLabel(values, MediaSlot(a, k))))
  }

  /** The kind an asset is stored with: that of its first label. */
  function FirstKind(values: seq<LabelValue>, asset: string): Option<string> {
    if values == [] then None
    else
      var last, earlier := values[|values| - 1], FirstKind(values[..|values| - 1], asset);
      if earlier.None? && last.target.scope != "global" && last.target.id == asset then Some(last.target.kind)
        else earlier
  }

  ghost predicate StoresKinds(values: seq<LabelValue>, kinds: map<string, string>) {
    forall a :: (if a in kinds then Some(kinds[a]) else None) == FirstKind(values, a)
  }

  function MediaJson(kinds: map<string, string>, assets: map<string, Table>): map<string, Json>
    requires kinds.Keys == assets.Keys
  {
    map a | a in assets :: Obj(map["target_kind" := Str(kinds[a]), "labels" := Obj(assets[a])])
  }

  ghost predicate IsSnapshot(values: seq<LabelValue>, snapshot: Json) {
    exists table: Table, kinds: map<string, string>, assets: map<string, Table> ::
      IsSnapshotOf(values, snapshot, table, kinds, assets)
  }

  ghost predicate IsSnapshotOf(
    values: seq<LabelValue>, snapshot: Json, table: Table, kinds: map<string, string>, assets: map<string, Table>)
  {
    && kinds.Keys == assets.Keys && StoresGlobal(values, table) && StoresMedia(values, assets)
      && StoresKinds(values, kinds)
    && snapshot == Obj(map["global" := Obj(table), "media" := Obj(MediaJson(kinds, assets))])
  }

  lemma {:induction false} MissingLabel(values: seq<LabelValue>, slot: Slot)
    ensures FindLabel(values, slot).None? <==> forall i | 0 <= i < |values| :: SlotOf(values[i]) != slot
  {
    if values != [] {
      var init := values[..|values| - 1];
      MissingLabel(init, slot);
      if SlotOf(values[|values| - 1]) != slot && FindLabel(init, slot).Some? {
        var i :| 0 <= i < |init| && SlotOf(init[i]) == slot;
        assert values[i] == init[i];
      }
    }
  }

  lemma UnambiguousStep(values: seq<LabelValue>, n: nat)
    requires n < |values| && Unambiguous(values[..n])
    ensures Unambiguous(values[..n + 1]) <==> FindLabel(values[..n], SlotOf(values[n])).None?
    ensures FindLabel(values[..n], SlotOf(values[n])).Some? ==> !Unambiguous(values)
  {
    MissingLabel(values[..n], SlotOf(values[n]));
    assert values[..n + 1] == values[..n] + [values[n]];
    if FindLabel(values[..n], SlotOf(values[n])).Some? {
      var i :| 0 <= i < |values[..n]| && SlotOf(values[..n][i]) == SlotOf(values[n]);
      assert SlotOf(values[i]) == SlotOf(values[n]) && SlotOf(values[..n + 1][i]) == SlotOf(values[..n + 1][n]);
    }
  }

  /** `_namespace_snapshot`: fails exactly when two labels claim the same slot. */
  method NamespaceSnapshot(values: seq<LabelValue>) returns (result: Result<Json>)
    ensures result.Ok? <==> Unambiguous(values)
    ensures result.Ok? ==> IsSnapshot(values, result.value)
  {
    var table: Table := map[];
    var kinds: map<string, string> := map[];
    var assets: map<string, Table> := map[];
    for n := 0 to |values|
      invariant Unambiguous(values[..n])
      invariant kinds.Keys == assets.Keys
      invariant StoresGlobal(values[..n], table) && StoresMedia(values[..n], assets) && StoresKinds(values[..n], kinds)
    {
      var v := values[n];
      assert values[..n + 1][..n] == values[..n];
      UnambiguousStep(values, n);
      assert Lookup(table, v.key) == Stored(FindLabel(values[..n], GlobalSlot(v.key)));
      if v.target.scope == "global" {
        if v.key in table { return Err("routing snapshot cannot represent multiple label definition versions"); }
        GlobalStep(values, n, table, assets);
        table := table[v.key := LabelJson(v)];
      } else {
        MediaMissing(values[..n], v.target.id, v.key, assets);
        if v.target.id in assets && v.key in assets[v.target.id] {
          return Err("routing snapshot cannot represent multiple label definition versions");
        }
        MediaStep(values, n, table, assets);
        if v.target.id !in assets {
          kinds := kinds[v.target.id := v.target.kind];
          assets := assets[v.target.id := map[]];
        }
        assets := assets[v.target.id := assets[v.target.id][v.key := LabelJson(v)]];
      }
    }
    assert values[..|values|] == values;
    var snapshot := Obj(map["global" := Obj(table), "media" := Obj(MediaJson(kinds, assets))]);
    assert IsSnapshotOf(values, snapshot, table, kinds, assets);
    result := Ok(snapshot);
  }

  lemma {:induction false} MediaMissing(values: seq<LabelValue>, asset: string, key: string, assets: map<string, Table>)
    requires StoresMedia(values, assets)
    ensures FindLabel(values, MediaSlot(asset, key)).Some? <==> asset in assets && key in assets[asset]
  {
    if asset in assets {
      assert Lookup(assets[asset], key) == Stored(FindLabel(values, MediaSlot(asset, key)));
    } else {
      NoAssetNoLabel(values, asset, key);
    }
  }

  lemma {:induction false} NoAssetNoLabel(values: seq<LabelValue>, asset: string, key: string)
    requires !HasAsset(values, asset)
    ensures FindLabel(values, MediaSlot(asset, key)).None?
  {
    if values != [] { NoAssetNoLabel(values[..|values| - 1], asset, key); }
  }

  lemma GlobalStep(values: seq<LabelValue>, n: nat, table: Table, assets: map<string, Table>)
    requires n < |values| && values[n].target.scope == "global"
    requires StoresGlobal(values[..n], table) && StoresMedia(values[..n], assets)
    ensures StoresGlobal(values[..n + 1], table[values[n].key := LabelJson(values[n])])
    ensures StoresMedia(values[..n + 1], assets)
  {
    assert values[..n + 1][..n] == values[..n];
  }

  function WithMedia(assets: map<string, Table>, v: LabelValue): map<string, Table> {
    var labels: Table := if v.target.id in assets then assets[v.target.id] else map[];
    assets[v.target.id := labels[v.key := LabelJson(v)]]
  }

  lemma MediaStep(values: seq<LabelValue>, n: nat, table: Table, assets: map<string, Table>)
    requires n < |values| && values[n].target.scope != "global"
    requires StoresGlobal(values[..n], table) && StoresMedia(values[..n], assets)
    ensures StoresGlobal(values[..n + 1], table)
    ensures StoresMedia(values[..n + 1], WithMedia(assets, values[n]))
  {
    var v, larger := values[n], WithMedia(assets, values[n]);
    assert values[..n + 1][..n] == values[..n];
    forall a, k | a in larger ensures Lookup(larger[a], k) == Stored(FindLabel(values[..n + 1], MediaSlot(a, k))) {
      MediaMissing(values[..n], a, k, assets);
    }
  }

  // ---------------------------------------------------------------- what a snapshot says of the labels

  /** A label as it is stored: its version, its score and whether it is activated. */
  predicate Shows(j: Json, v: LabelValue) {
    && j.Obj? && j.fields.Keys == {"label_definition_version_id", "score", "activated"}
    && j.fields["label_definition_version_id"] == Str(v.definition) && j.fields["score"] == Float(v.score)
    && j.fields["activated"] == Bool(v.activated)
  }

  /** The snapshot holds these label tables: one for the message, and one for each asset, with the asset's kind. */
  predicate Tables(snapshot: Json, global: Table, kinds: map<string, string>, assets: map<string, Table>) {
    && snapshot.Obj? && snapshot.fields.Keys == {"global", "media"} && snapshot.fields["global"] == Obj(global)
    && snapshot.fields["media"].Obj? && snapshot.fields["media"].fields.Keys == assets.Keys == kinds.Keys
    && forall a | a in assets ::
         snapshot.fields["media"].fields[a] == Obj(map["target_kind" := Str(kinds[a]), "labels" := Obj(assets[a])])
  }

  /** Every global label stands in the table, and every entry of the table is a global label. */
  ghost predicate TellsGlobal(values: seq<LabelValue>, global: Table) {
    && (forall v | v in values && v.target.scope == "global" :: v.key in global && Shows(global[v.key], v))
    && (forall k | k in global :: exists v :: v in values && v.target.scope == "global" && v.key == k)
  }

  /** The same of the assets' tables. */
  ghost predicate TellsAssets(values: seq<LabelValue>, assets: map<string, Table>) {
    && (forall v | v in values && v.target.scope != "global" ::
          v.target.id in assets && v.key in assets[v.target.id] && Shows(assets[v.target.id][v.key], v))
    && (forall a, k | a in assets && k in assets[a] ::
          exists v :: v in values && v.target.scope != "global" && v.target.id == a && v.key == k)
  }

  /** The kind of an asset is that of its first label. */
  ghost predicate TellsKinds(values: seq<LabelValue>, kinds: map<string, string>) {
    forall a | a in kinds :: exists i: nat :: FirstOf(values, a, i) && kinds[a] == values[i].target.kind
  }

  /** The first label of an asset. */
  predicate FirstOf(values: seq<LabelValue>, asset: string, i: nat) {
    && i < |values| && values[i].target.scope != "global" && values[i].target.id == asset
    && forall j | 0 <= j < i :: values[j].target.scope == "global" || values[j].target.id != asset
  }

  lemma {:induction false} FindsLabel(values: seq<LabelValue>, slot: Slot)
    ensures FindLabel(values, slot).Some? ==>
      FindLabel(values, slot).value in values && SlotOf(FindLabel(values, slot).value) == slot
  {
    if values != [] { FindsLabel(values[..|values| - 1], slot); }
  }

  lemma OnlyLabel(values: seq<LabelValue>, v: LabelValue)
    requires Unambiguous(values) && v in values
    ensures FindLabel(values, SlotOf(v)) == Some(v)
  {
    MissingLabel(values, SlotOf(v));
    FindsLabel(values, SlotOf(v));
    var i :| 0 <= i < |values| && values[i] == v;
    var u := FindLabel(values, SlotOf(v)).value;
    var j :| 0 <= j < |values| && values[j] == u;
  }

  lemma {:induction false} FirstKindIsFirst(values: seq<LabelValue>, asset: string)
    ensures match FirstKind(values, asset)
      case None => forall i | 0 <= i < |values| :: values[i].target.scope == "global" || values[i].target.id != asset
      case Some(kind) => exists i: nat :: FirstOf(values, asset, i) && values[i].target.kind == kind
  {
    if values != [] {
      var n := |values| - 1;
      FirstKindIsFirst(values[..n], asset);
      if FirstKind(values[..n], asset).Some? {
        var i: nat :| FirstOf(values[..n], asset, i) && values[..n][i].target.kind == FirstKind(values, asset).value;
        assert FirstOf(values, asset, i);
      } else {
        forall i | 0 <= i < n ensures values[i].target.scope == "global" || values[i].target.id != asset {
          assert values[..n][i] == values[i];
        }
        if FirstKind(values, asset).Some? { assert FirstOf(values, asset, n); }
      }
    }
  }

  lemma GlobalTells(values: seq<LabelValue>, table: Table)
    requires Unambiguous(values) && StoresGlobal(values, table)
    ensures TellsGlobal(values, table)
  {
    forall v | v in values && v.target.scope == "global" ensures v.key in table && Shows(table[v.key], v) {
      OnlyLabel(values, v);
      assert Lookup(table, v.key) == Stored(FindLabel(values, GlobalSlot(v.key)));
    }
    forall k | k in table ensures exists v :: v in values && v.target.scope == "global" && v.key == k {
      assert Lookup(table, k) == Stored(FindLabel(values, GlobalSlot(k)));
      FindsLabel(values, GlobalSlot(k));
    }
  }

  lemma MediaTells(values: seq<LabelValue>, assets: map<string, Table>)
    requires Unambiguous(values) && StoresMedia(values, assets)
    ensures TellsAssets(values, assets)
  {
    forall v | v in values && v.target.scope != "global"
      ensures v.target.id in assets && v.key in assets[v.target.id] && Shows(assets[v.target.id][v.key], v)
    {
      OnlyLabel(values, v);
      MediaMissing(values, v.target.id, v.key, assets);
    }
    forall a, k | a in assets && k in assets[a]
      ensures exists v :: v in values && v.target.scope != "global" && v.target.id == a && v.key == k
    {
      MediaMissing(values, a, k, assets);
      FindsLabel(values, MediaSlot(a, k));
    }
  }

  lemma KindTells(values: seq<LabelValue>, kinds: map<string, string>, asset: string)
    requires StoresKinds(values, kinds) && asset in kinds
    ensures exists i: nat :: FirstOf(values, asset, i) && kinds[asset] == values[i].target.kind
  {
    FirstKindIsFirst(values, asset);
    assert (if asset in kinds then Some(kinds[asset]) else None) == FirstKind(values, asset);
  }

  lemma KindsTell(values: seq<LabelValue>, kinds: map<string, string>)
    requires StoresKinds(values, kinds)
    ensures TellsKinds(values, kinds)
  {
    forall a | a in kinds ensures exists i: nat :: FirstOf(values, a, i) && kinds[a] == values[i].target.kind {
      KindTells(values, kinds, a);
    }
  }

  lemma ShownAsTables(snapshot: Json, table: Table, kinds: map<string, string>, assets: map<string, Table>)
    requires kinds.Keys == assets.Keys
    requires snapshot == Obj(map["global" := Obj(table), "media" := Obj(MediaJson(kinds, assets))])
    ensures Tables(snapshot, table, kinds, assets)
  {
  }

  /** The snapshot tells of every label, of no other, and of each in its own table. */
  lemma SnapshotTells(values: seq<LabelValue>, snapshot: Json)
      returns (global: Table, kinds: map<string, string>, assets: map<string, Table>)
    requires Unambiguous(values) && IsSnapshot(values, snapshot)
    ensures Tables(snapshot, global, kinds, assets)
    ensures TellsGlobal(values, global) && TellsAssets(values, assets) && TellsKinds(values, kinds)
  {
    global, kinds, assets :| IsSnapshotOf(values, snapshot, global, kinds, assets);
    GlobalTells(values, global);
    MediaTells(values, assets);
    KindsTell(values, kinds);
    ShownAsTables(snapshot, global, kinds, assets);
  }

  // ---------------------------------------------------------------- build_routing_facts

  function RoutingFactsOf(
    messageId: string, message: map<string, Json>, channel: Json, duplicate: Json, media: Json,
    reviewStatus: string, model: Json, manual: Json, effective: Json): C.Facts
  {
    var identified := if "id" in message then message else message["id" := Str(messageId)];
    var reviewed := identified["review_status" := Str(reviewStatus)];
    map[
      "message" := Obj(reviewed),
      "source_channel" := channel,
      "duplicate" := duplicate,
      "media" := media,
      "blocked_from_analysis" :=
        (if "blocked_from_analysis" in reviewed then reviewed["blocked_from_analysis"] else Bool(false)),
      "review_status" := Str(reviewStatus),
      "labels" := Obj(map["model" := model, "manual" := manual, "effective" := effective])]
  }

  /** The facts are what was loaded, with the review status and whether the message is blocked; by default it is not. */
  lemma FactsTell(
      messageId: string, message: map<string, Json>, channel: Json, duplicate: Json, media: Json,
      reviewStatus: string, model: Json, manual: Json, effective: Json)
    ensures var facts :=
      RoutingFactsOf(messageId, message, channel, duplicate, media, reviewStatus, model, manual, effective);
      && facts.Keys == {"message", "source_channel", "duplicate", "media", "blocked_from_analysis", "review_status",
                        "labels"}
      && facts["source_channel"] == channel && facts["duplicate"] == duplicate && facts["media"] == media
      && facts["review_status"] == Str(reviewStatus)
      && facts["blocked_from_analysis"] ==
           (if "blocked_from_analysis" in message then message["blocked_from_analysis"] else Bool(false))
      && facts["labels"] == Obj(map["model" := model, "manual" := manual, "effective" := effective])
      && facts["message"].Obj? && facts["message"].fields.Keys == message.Keys + {"id", "review_status"}
      && facts["message"].fields["review_status"] == Str(reviewStatus)
      && facts["message"].fields["id"] == (if "id" in message then message["id"] else Str(messageId))
      && forall k | k in message && k != "review_status" :: facts["message"].fields[k] == message[k]
  {
  }

  /** `facts` carries the label snapshot of `values` under the namespace `ns`. */
  ghost predicate Carries(facts: C.Facts, ns: string, values: seq<LabelValue>) {
    && (forall path: string | "labels." <= path :: path !in facts)
    && "labels" in facts && facts["labels"].Obj? && ns in facts["labels"].fields
    && IsSnapshot(values, facts["labels"].fields[ns])
    && '.' !in ns
  }

  lemma FactsCarryLabels(
      messageId: string, message: map<string, Json>, channel: Json, duplicate: Json, media: Json,
      reviewStatus: string, model: Json, manual: Json, effective: Json, resolved: Namespaces)
    requires IsSnapshot(resolved.model, model) && IsSnapshot(resolved.manual, manual)
    requires IsSnapshot(resolved.effective, effective)
    ensures var facts :=
      RoutingFactsOf(messageId, message, channel, duplicate, media, reviewStatus, model, manual, effective);
      Carries(facts, "model", resolved.model) && Carries(facts, "manual", resolved.manual)
        && Carries(facts, "effective", resolved.effective)
  {
    var facts := RoutingFactsOf(messageId, message, channel, duplicate, media, reviewStatus, model, manual, effective);
    forall path: string | "labels." <= path ensures path !in facts {
      assert path[0] == 'l' && path[6] == '.';
    }
  }

  lemma LabelPath(ns: string, rest: string)
    requires '.' !in ns
    ensures Split("labels." + ns + "." + rest, '.') == ["labels", ns] + Split(rest, '.')
  {
    var tail := ns + ['.'] + rest;
    assert "labels." + ns + "." + rest == "labels" + ['.'] + tail;
    SplitAtFirst("labels", '.', tail);
    SplitAtFirst(ns, '.', rest);
  }

  lemma ResolveLabels(facts: C.Facts, ns: string, rest: string)
    requires (forall path: string | "labels." <= path :: path !in facts) && '.' !in ns
    requires "labels" in facts && facts["labels"].Obj? && ns in facts["labels"].fields
    ensures C.Resolve(facts, "labels." + ns + "." + rest) == C.Walk(facts["labels"].fields[ns], Split(rest, '.'))
  {
    LabelPath(ns, rest);
    var path, tail := "labels." + ns + "." + rest, Split(rest, '.');
    assert "labels." <= path;
    assert (["labels", ns] + tail)[1..] == [ns] + tail && ([ns] + tail)[1..] == tail;
    assert C.Walk(Obj(facts), ["labels", ns] + tail) == C.Walk(facts["labels"], [ns] + tail);
  }

  lemma ResolveGlobal(facts: C.Facts, ns: string, key: string, table: Table, media: Json)
    requires (forall path: string | "labels." <= path :: path !in facts) && '.' !in ns && '.' !in key
    requires "labels" in facts && facts["labels"].Obj? && ns in facts["labels"].fields
    requires facts["labels"].fields[ns] == Obj(map["global" := Obj(table), "media" := media])
    ensures C.Resolve(facts, "labels." + ns + ".global." + key) == Lookup(table, key)
  {
    var rest := "global." + key;
    ResolveLabels(facts, ns, rest);
    assert rest == "global" + ['.'] + key;
    SplitAtFirst("global", '.', key);
    SplitSingle(key, '.');
    assert Split(rest, '.') == ["global", key];
    assert ["global", key][1..] == [key] && [key][1..] == [];
    assert "labels." + ns + ".global." + key == "labels." + ns + "." + rest;
    var snapshot := facts["labels"].fields[ns];
    assert C.Walk(snapshot, ["global", key]) == C.Walk(Obj(table), [key]);
    if key in table { assert C.Walk(table[key], []) == Some(table[key]); }
  }

  /** What a label answers to a test. Scores are floats, so an integer threshold is never equal to one, nor unequal. */
  function LabelAnswer(test: C.LabelTest, found: Option<LabelValue>): C.Truth {
    if found.None? then C.Unknown
    else match test
      case Activated => C.OfBool(found.value.activated)
      case Score(op, threshold) =>
        if !threshold.IsNumber() then C.Unknown
        else match op
          case Gt => C.OfBool(found.value.score > threshold.Numeric())
          case Gte => C.OfBool(found.value.score >= threshold.Numeric())
          case Lt => C.OfBool(found.value.score < threshold.Numeric())
          case Lte => C.OfBool(found.value.score <= threshold.Numeric())
          case Eq => if threshold.Float? then C.OfBool(found.value.score == threshold.r) else C.Unknown
          case Neq => if threshold.Float? then C.OfBool(found.value.score != threshold.r) else C.Unknown
          case _ => C.Unknown
  }

  lemma StoredAnswers(test: C.LabelTest, found: Option<LabelValue>)
    ensures C.TestLabel(test, Stored(found)) == LabelAnswer(test, found)
  {
  }

  /** The label conditions of a dot-free key ask exactly the stored label, and nothing when there is none. */
  lemma GlobalLabelMeaning(facts: C.Facts, ns: string, values: seq<LabelValue>, key: string, test: C.LabelTest)
    requires Carries(facts, ns, values) && '.' !in key
    ensures C.Eval(C.Label(C.LabelQuery(ns, key, test)), facts) == LabelAnswer(test, FindLabel(values, GlobalSlot(key)))
  {
    StoredAnswers(test, FindLabel(values, GlobalSlot(key)));
    var table: Table, kinds: map<string, string>, assets: map<string, Table> :|
      IsSnapshotOf(values, facts["labels"].fields[ns], table, kinds, assets);
    ResolveGlobal(facts, ns, key, table, Obj(MediaJson(kinds, assets)));
    assert Lookup(table, key) == Stored(FindLabel(values, GlobalSlot(key)));
  }

  lemma ResolveMedia(facts: C.Facts, ns: string, global: Json, media: Json)
    requires (forall path: string | "labels." <= path :: path !in facts) && '.' !in ns
    requires "labels" in facts && facts["labels"].Obj? && ns in facts["labels"].fields
    requires facts["labels"].fields[ns] == Obj(map["global" := global, "media" := media])
    ensures C.Resolve(facts, "labels." + ns + ".media") == Some(media)
  {
    ResolveLabels(facts, ns, "media");
    SplitSingle("media", '.');
    assert ["media"][1..] == [];
    assert "labels." + ns + ".media" == "labels." + ns + "." + "media";
  }

  function AssetAnswer(values: seq<LabelValue>, asset: string, key: string, test: C.LabelTest): C.Truth {
    LabelAnswer(test, FindLabel(values, MediaSlot(asset, key)))
  }

  /**
   * `any_media` is true when the label of some asset passes the test, false when every labelled asset carries the
   * label and none passes, and unknown otherwise: when an asset lacks it.
   */
  lemma AnyMediaMeaning(facts: C.Facts, ns: string, values: seq<LabelValue>, key: string, test: C.LabelTest)
    requires Carries(facts, ns, values)
    ensures var answer := C.Eval(C.AnyMedia(C.LabelQuery(ns, key, test)), facts);
      && (answer == C.True <==> exists a :: HasAsset(values, a) && AssetAnswer(values, a, key, test) == C.True)
      && (answer == C.False <==> forall a | HasAsset(values, a) :: AssetAnswer(values, a, key, test) == C.False)
  {
    var q := C.LabelQuery(ns, key, test);
    var table: Table, kinds: map<string, string>, assets: map<string, Table> :|
      IsSnapshotOf(values, facts["labels"].fields[ns], table, kinds, assets);
    var entries := MediaJson(kinds, assets);
    ResolveMedia(facts, ns, Obj(table), Obj(entries));
    forall a | a in assets ensures C.MediaLabel(q, facts, entries[a]) == AssetAnswer(values, a, key, test) {
      StoredAnswers(test, FindLabel(values, MediaSlot(a, key)));
      assert Lookup(assets[a], key) == Stored(FindLabel(values, MediaSlot(a, key)));
    }
    AnyOfEntries(q, facts, entries, a => AssetAnswer(values, a, key, test));
    assert forall a :: a in entries <==> HasAsset(values, a);
  }

  lemma AnyOfEntries(q: C.LabelQuery, facts: C.Facts, entries: Table, answer: string -> C.Truth)
    requires C.MediaEntries(q, facts) == Some(entries)
    requires forall a | a in entries :: C.MediaLabel(q, facts, entries[a]) == answer(a)
    ensures C.Eval(C.AnyMedia(q), facts) == C.True <==> exists a :: a in entries && answer(a) == C.True
    ensures C.Eval(C.AnyMedia(q), facts) == C.False <==> forall a | a in entries :: answer(a) == C.False
  {
    var answers := set a | a in entries :: C.MediaLabel(q, facts, entries[a]);
    assert C.Eval(C.AnyMedia(q), facts) == C.Disjunction(answers);
    forall t ensures t in answers <==> exists a :: a in entries && answer(a) == t {}
  }
}
