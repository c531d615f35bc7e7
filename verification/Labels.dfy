/** Model and manual labels, the effective label of every target, and their snapshot for routing. */
module Labels {
  import opened Json
  import opened Ordering
  import Conditions

  /** Scope "global" belongs to the message itself, scope "media" to one of its assets. */
  datatype Target = Target(scope: string, kind: string, id: string)

  datatype LabelId = LabelId(scope: string, target: string, definition: string)

  datatype LabelValue = LabelValue(target: Target, definition: string, key: string, score: real, activated: bool)
  {
    function Identity(): LabelId { LabelId(target.scope, target.id, definition) }

    function SortKey(): seq<string> { [target.scope, target.id, key, definition] }
  }

  datatype Operation = Set(score: real, activated: bool) | Clear

  datatype Event = Event(id: string, createdAt: int, target: Target, definition: string, key: string,
    operation: Operation)
  {
    function Identity(): LabelId { LabelId(target.scope, target.id, definition) }

    function AsLabelValue(): LabelValue
      requires operation.Set?
    {
      LabelValue(target, definition, key, operation.score, operation.activated)
    }
  }

  datatype Namespaces = Namespaces(model: seq<LabelValue>, manual: seq<LabelValue>, effective: seq<LabelValue>)

  predicate EventBefore(a: Event, b: Event) {
    a.createdAt < b.createdAt || (a.createdAt == b.createdAt && StringLess(a.id, b.id))
  }

  predicate LabelBefore(a: LabelValue, b: LabelValue) { TupleLess(a.SortKey(), b.SortKey()) }

  lemma EventOrder()
    ensures KeyOrder(EventBefore)
  {
    StringOrder();
  }

  lemma LabelOrder()
    ensures KeyOrder(LabelBefore)
  {
    TupleOrder();
  }

  // ---------------------------------------------------------------- what the namespaces mean

  /** The last model assignment of an identity wins. */
  function ModelLabel(assignments: seq<LabelValue>, id: LabelId): Option<LabelValue> {
    if assignments == [] then None
    else
      var last := assignments[|assignments| - 1];
      if last.Identity() == id then Some(last) else ModelLabel(assignments[..|assignments| - 1], id)
  }

  ghost predicate IsLatest(events: seq<Event>, e: Event) {
    e in events && forall other | other in events && other.Identity() == e.Identity() :: !EventBefore(e, other)
  }

  ghost predicate IsManual(events: seq<Event>, v: LabelValue) {
    exists e :: IsLatest(events, e) && e.operation.Set? && e.AsLabelValue() == v
  }

  ghost predicate HasManual(events: seq<Event>, id: LabelId) {
    exists e :: IsLatest(events, e) && e.operation.Set? && e.Identity() == id
  }

  /** The latest manual `set` of the identity, else the model value. */
  ghost predicate IsEffective(assignments: seq<LabelValue>, events: seq<Event>, v: LabelValue) {
    IsManual(events, v) || (!HasManual(events, v.Identity()) && ModelLabel(assignments, v.Identity()) == Some(v))
  }

  ghost predicate Resolves(assignments: seq<LabelValue>, events: seq<Event>, r: Namespaces) {
    && StrictlyAscending(LabelBefore, r.model) && StrictlyAscending(LabelBefore, r.manual)
      && StrictlyAscending(LabelBefore, r.effective)
    && (forall v :: v in r.model <==> ModelLabel(assignments, v.Identity()) == Some(v))
    && (forall v :: v in r.manual <==> IsManual(events, v))
    && (forall v :: v in r.effective <==> IsEffective(assignments, events, v))
  }

  ghost predicate DistinctEventIds(events: seq<Event>) {
    forall i, j | 0 <= i < j < |events| :: events[i].id != events[j].id
  }

  // ---------------------------------------------------------------- resolve_label_namespaces

  type Table = map<LabelId, LabelValue>

  ghost predicate Keyed(table: Table) {
    forall id | id in table :: table[id].Identity() == id
  }

  /** `_ordered(table.values())`, whatever order the dictionary has. */
  method Ordered(table: Table) returns (values: seq<LabelValue>)
    requires Keyed(table)
    ensures StrictlyAscending(LabelBefore, values)
    ensures forall v :: v in values <==> v.Identity() in table && table[v.Identity()] == v
  {
    values := [];
    var remaining := table.Keys;
    while remaining != {}
      invariant remaining <= table.Keys
      invariant forall v :: v in values <==> v.Identity() in table.Keys - remaining && table[v.Identity()] == v
      invariant forall i, j | 0 <= i < j < |values| :: values[i].Identity() != values[j].Identity()
      decreases remaining
    {
      var id :| id in remaining;
      assert forall i | 0 <= i < |values| :: values[i] in values;
      values := values + [table[id]];
      remaining := remaining - {id};
    }
    DistinctLabels(values);
    LabelOrder();
    SortStrict(LabelBefore, values);
    values := Sort(LabelBefore, values);
  }

  lemma SortKeyIdentifies(v: LabelValue, w: LabelValue)
    ensures v.SortKey() == w.SortKey() ==> v.Identity() == w.Identity()
  {
    assert v.SortKey()[0] == v.target.scope && v.SortKey()[1] == v.target.id && v.SortKey()[3] == v.definition;
    assert w.SortKey()[0] == w.target.scope && w.SortKey()[1] == w.target.id && w.SortKey()[3] == w.definition;
  }

  lemma DistinctLabels(values: seq<LabelValue>)
    requires forall i, j | 0 <= i < j < |values| :: values[i].Identity() != values[j].Identity()
    ensures DistinctKeys(LabelBefore, values)
  {
    TupleOrder();
    forall i, j | 0 <= i < j < |values| ensures values[i].SortKey() != values[j].SortKey() {
      SortKeyIdentifies(values[i], values[j]);
    }
  }

  /** `table` holds the latest event of every identity that has one. */
  ghost predicate LatestTable(events: seq<Event>, latest: map<LabelId, Event>) {
    && (forall id | id in latest :: IsLatest(events, latest[id]) && latest[id].Identity() == id)
    && (forall e | IsLatest(events, e) :: e.Identity() in latest && latest[e.Identity()] == e)
  }

  /** Appending an event later than all others makes it the latest of its identity and changes no other. */
  lemma LatestAppend(shorter: seq<Event>, newest: Event)
    requires forall e | e in shorter :: EventBefore(e, newest) && !EventBefore(newest, e)
    requires !EventBefore(newest, newest)
    ensures IsLatest(shorter + [newest], newest)
    ensures forall e | e != newest ::
      IsLatest(shorter + [newest], e) <==> (IsLatest(shorter, e) && e.Identity() != newest.Identity())
  {
    var longer := shorter + [newest];
    assert forall other :: other in longer <==> (other in shorter || other == newest);
  }

  lemma TableAppend(shorter: seq<Event>, newest: Event, latest: map<LabelId, Event>)
    requires LatestTable(shorter, latest)
    requires IsLatest(shorter + [newest], newest)
    requires forall e | e != newest ::
      IsLatest(shorter + [newest], e) <==> (IsLatest(shorter, e) && e.Identity() != newest.Identity())
    ensures LatestTable(shorter + [newest], latest[newest.Identity() := newest])
  {
    var longer, table := shorter + [newest], latest[newest.Identity() := newest];
    forall id | id in table ensures IsLatest(longer, table[id]) && table[id].Identity() == id {
      if id != newest.Identity() { assert table[id] == latest[id] && IsLatest(shorter, latest[id]); }
    }
    forall e | IsLatest(longer, e) ensures e.Identity() in table && table[e.Identity()] == e {
      if e != newest { assert IsLatest(shorter, e); }
    }
  }

  lemma LatestStep(sorted: seq<Event>, n: nat, latest: map<LabelId, Event>)
    requires n < |sorted| && StrictlyAscending(EventBefore, sorted)
    requires LatestTable(sorted[..n], latest)
    ensures LatestTable(sorted[..n + 1], latest[sorted[n].Identity() := sorted[n]])
  {
    var shorter, longer, newest := sorted[..n], sorted[..n + 1], sorted[n];
    assert longer == shorter + [newest];
    forall e | e in shorter ensures EventBefore(e, newest) && !EventBefore(newest, e) {
      var i :| 0 <= i < n && sorted[i] == e;
      StringLessTotal(e.id, newest.id);
    }
    StringLessTotal(newest.id, newest.id);
    LatestAppend(shorter, newest);
    TableAppend(shorter, newest, latest);
  }

  method LatestManual(events: seq<Event>) returns (latest: map<LabelId, Event>)
    requires DistinctEventIds(events)
    ensures LatestTable(events, latest)
  {
    DistinctEvents(events);
    EventOrder();
    SortStrict(EventBefore, events);
    var sorted := Sort(EventBefore, events);
    latest := map[];
    for n := 0 to |sorted|
      invariant LatestTable(sorted[..n], latest)
    {
      LatestStep(sorted, n, latest);
      latest := latest[sorted[n].Identity() := sorted[n]];
    }
    assert sorted[..|sorted|] == sorted;
    assert forall e :: IsLatest(sorted, e) <==> IsLatest(events, e);
  }

  lemma DistinctEvents(events: seq<Event>)
    requires DistinctEventIds(events)
    ensures DistinctKeys(EventBefore, events)
  {
    StringOrder();
  }

  ghost predicate ModelTable(assignments: seq<LabelValue>, table: Table) {
    forall id :: Lookup(table, id) == ModelLabel(assignments, id)
  }

  lemma {:induction false} ModelLabelIdentity(assignments: seq<LabelValue>, id: LabelId)
    ensures var found := ModelLabel(assignments, id); found.Some? ==> found.value.Identity() == id
  {
    if assignments != [] { ModelLabelIdentity(assignments[..|assignments| - 1], id); }
  }

  method ModelByIdentity(assignments: seq<LabelValue>) returns (table: Table)
    ensures ModelTable(assignments, table) && Keyed(table)
  {
    table := map[];
    for n := 0 to |assignments|
      invariant ModelTable(assignments[..n], table) && Keyed(table)
    {
      assert assignments[..n + 1][..n] == assignments[..n];
      table := table[assignments[n].Identity() := assignments[n]];
    }
    assert assignments[..|assignments|] == assignments;
  }

  function ManualTable(latest: map<LabelId, Event>): Table {
    map id | id in latest && latest[id].operation.Set? :: latest[id].AsLabelValue()
  }

  method EffectiveByIdentity(model: Table, latest: map<LabelId, Event>) returns (effective: Table)
    requires Keyed(model) && forall id | id in latest :: latest[id].Identity() == id
    ensures effective == model + ManualTable(latest) && Keyed(effective)
  {
    effective := model;
    var remaining := latest.Keys;
    while remaining != {}
      invariant remaining <= latest.Keys && Keyed(effective)
      invariant effective == model + (ManualTable(latest) - remaining)
      decreases remaining
    {
      var id :| id in remaining;
      var event := latest[id];
      if event.operation.Set? {
        effective := effective[id := event.AsLabelValue()];
      } else {
        effective := effective - {id};
        if id in model { effective := effective[id := model[id]]; }
      }
      remaining := remaining - {id};
    }
    assert ManualTable(latest) - {} == ManualTable(latest);
  }

  lemma TablesMeanLabels(assignments: seq<LabelValue>, events: seq<Event>, model: Table, latest: map<LabelId, Event>)
    requires ModelTable(assignments, model) && LatestTable(events, latest)
    ensures forall v: LabelValue ::
      Lookup(model, v.Identity()) == Some(v) <==> ModelLabel(assignments, v.Identity()) == Some(v)
    ensures forall v: LabelValue :: Lookup(ManualTable(latest), v.Identity()) == Some(v) <==> IsManual(events, v)
    ensures forall v: LabelValue ::
      Lookup(model + ManualTable(latest), v.Identity()) == Some(v) <==> IsEffective(assignments, events, v)
  {
    ManualMeaning(events, latest);
    forall v: LabelValue ensures Lookup(model, v.Identity()) == ModelLabel(assignments, v.Identity()) {}
  }

  // ---------------------------------------------------------------- what the namespaces hold, told from the inputs

  predicate About(e: Event, v: LabelValue) {
    e.target.scope == v.target.scope && e.target.id == v.target.id && e.definition == v.definition
  }

  /** Of the events about its label, `e` was made last; of those made at one time it has the greatest ID. */
  ghost predicate MadeLast(events: seq<Event>, e: Event) {
    && e in events
    && forall x | x in events && x != e && x.target.scope == e.target.scope && x.target.id == e.target.id
         && x.definition == e.definition ::
         x.createdAt < e.createdAt || (x.createdAt == e.createdAt && StringLess(x.id, e.id))
  }

  /** The last manual event about the label set it to this. */
  ghost predicate SetBy(events: seq<Event>, v: LabelValue) {
    exists e :: MadeLast(events, e) && e.operation.Set?
      && v == LabelValue(e.target, e.definition, e.key, e.operation.score, e.operation.activated)
  }

  /** The last manual event about the label set it to something. */
  ghost predicate SetLast(events: seq<Event>, v: LabelValue) {
    exists e :: MadeLast(events, e) && e.operation.Set? && About(e, v)
  }

  /** The model assigned this last. */
  ghost predicate AssignedLast(assignments: seq<LabelValue>, v: LabelValue) {
    exists i :: 0 <= i < |assignments| && assignments[i] == v && forall j | i < j < |assignments| ::
      !(assignments[j].target.scope == v.target.scope && assignments[j].target.id == v.target.id
        && assignments[j].definition == v.definition)
  }

  /** By scope, target, key and version: the first of these to differ decides. */
  ghost predicate Precedes(a: LabelValue, b: LabelValue) {
    exists n: nat :: SmallerAt(StringLess, [a.target.scope, a.target.id, a.key, a.definition],
      [b.target.scope, b.target.id, b.key, b.definition], n)
  }

  ghost predicate InLabelOrder(values: seq<LabelValue>) {
    forall i, j | 0 <= i < j < |values| :: Precedes(values[i], values[j])
  }

  /**
   * The model value is the last one assigned, the manual value the last one set; the effective value is the manual
   * one, or the model's if there is none.
   */
  ghost predicate Namespaced(assignments: seq<LabelValue>, events: seq<Event>, r: Namespaces) {
    && (forall v :: v in r.model <==> AssignedLast(assignments, v))
    && (forall v :: v in r.manual <==> SetBy(events, v))
    && (forall v :: v in r.effective <==> SetBy(events, v) || (!SetLast(events, v) && AssignedLast(assignments, v)))
    && InLabelOrder(r.model) && InLabelOrder(r.manual) && InLabelOrder(r.effective)
  }

  lemma LatestMeansLast(events: seq<Event>, e: Event)
    requires DistinctEventIds(events)
    ensures IsLatest(events, e) <==> MadeLast(events, e)
  {
    StringOrder();
    forall x | x in events && e in events && x != e ensures x.id != e.id {
      var i :| 0 <= i < |events| && events[i] == x;
      var j :| 0 <= j < |events| && events[j] == e;
    }
  }

  lemma {:induction false} ModelMeansLast(assignments: seq<LabelValue>, v: LabelValue)
    ensures ModelLabel(assignments, v.Identity()) == Some(v) <==> AssignedLast(assignments, v)
  {
    if assignments != [] {
      var n := |assignments| - 1;
      ModelMeansLast(assignments[..n], v);
      if AssignedLast(assignments, v) {
        var i :| 0 <= i < |assignments| && assignments[i] == v && forall j | i < j < |assignments| ::
          !(assignments[j].target.scope == v.target.scope && assignments[j].target.id == v.target.id
            && assignments[j].definition == v.definition);
        if i < n { assert assignments[..n][i] == v; }
      }
      if AssignedLast(assignments[..n], v) && assignments[n].Identity() != v.Identity() {
        var i :| 0 <= i < n && assignments[..n][i] == v && forall j | i < j < n ::
          !(assignments[..n][j].target.scope == v.target.scope && assignments[..n][j].target.id == v.target.id
            && assignments[..n][j].definition == v.definition);
        assert assignments[i] == v;
      }
    }
  }

  lemma AscendingInOrder(values: seq<LabelValue>)
    requires StrictlyAscending(LabelBefore, values)
    ensures InLabelOrder(values)
  {
    forall i, j | 0 <= i < j < |values| ensures Precedes(values[i], values[j]) {
      assert LabelBefore(values[i], values[j]);
      TupleLessMeans(values[i].SortKey(), values[j].SortKey());
    }
  }

  lemma ManualMeansSet(events: seq<Event>)
    requires DistinctEventIds(events)
    ensures forall v :: IsManual(events, v) <==> SetBy(events, v)
    ensures forall v: LabelValue :: HasManual(events, v.Identity()) <==> SetLast(events, v)
  {
    forall e ensures IsLatest(events, e) <==> MadeLast(events, e) { LatestMeansLast(events, e); }
    forall v: LabelValue ensures HasManual(events, v.Identity()) <==> SetLast(events, v) {
      if HasManual(events, v.Identity()) {
        var e :| IsLatest(events, e) && e.operation.Set? && e.Identity() == v.Identity();
        assert MadeLast(events, e) && About(e, v);
      }
      if SetLast(events, v) {
        var e :| MadeLast(events, e) && e.operation.Set? && About(e, v);
        assert IsLatest(events, e) && e.Identity() == v.Identity();
      }
    }
  }

  lemma ResolvedIsNamespaced(assignments: seq<LabelValue>, events: seq<Event>, r: Namespaces)
    requires DistinctEventIds(events) && Resolves(assignments, events, r)
    ensures Namespaced(assignments, events, r)
  {
    ManualMeansSet(events);
    forall v: LabelValue ensures ModelLabel(assignments, v.Identity()) == Some(v) <==> AssignedLast(assignments, v) {
      ModelMeansLast(assignments, v);
    }
    AscendingInOrder(r.model);
    AscendingInOrder(r.manual);
    AscendingInOrder(r.effective);
  }

  method ResolveLabelNamespaces(assignments: seq<LabelValue>, events: seq<Event>) returns (r: Namespaces)
    requires DistinctEventIds(events)
    ensures Resolves(assignments, events, r) && Namespaced(assignments, events, r)
  {
    var modelByIdentity := ModelByIdentity(assignments);
    var latest := LatestManual(events);
    var manualByIdentity := ManualTable(latest);
    var effectiveByIdentity := EffectiveByIdentity(modelByIdentity, latest);
    var model := Ordered(modelByIdentity);
    var manual := Ordered(manualByIdentity);
    var effective := Ordered(effectiveByIdentity);
    r := Namespaces(model, manual, effective);
    TablesMeanLabels(assignments, events, modelByIdentity, latest);
    ResolvedIsNamespaced(assignments, events, r);
  }

  function Lookup(table: Table, id: LabelId): Option<LabelValue> {
    if id in table then Some(table[id]) else None
  }

  lemma ManualMeaning(events: seq<Event>, latest: map<LabelId, Event>)
    requires LatestTable(events, latest)
    ensures forall v :: IsManual(events, v) <==> Lookup(ManualTable(latest), v.Identity()) == Some(v)
    ensures forall id :: HasManual(events, id) <==> id in ManualTable(latest)
  {
    forall v ensures IsManual(events, v) <==> Lookup(ManualTable(latest), v.Identity()) == Some(v) {
      if Lookup(ManualTable(latest), v.Identity()) == Some(v) {
        assert IsLatest(events, latest[v.Identity()]);
      }
    }
    forall id ensures HasManual(events, id) <==> id in ManualTable(latest) {
      if id in ManualTable(latest) { assert IsLatest(events, latest[id]); }
    }
  }

  /** The namespaces do not depend on the order in which manual events are listed. */
  lemma EventOrderIrrelevant(assignments: seq<LabelValue>, events: seq<Event>, shuffled: seq<Event>, r: Namespaces,
      s: Namespaces)
    requires multiset(events) == multiset(shuffled)
    requires Resolves(assignments, events, r) && Resolves(assignments, shuffled, s)
    ensures r == s
  {
    SameElements(events, shuffled);
    forall e ensures IsLatest(events, e) <==> IsLatest(shuffled, e) {}
    LabelOrder();
    forall v
      ensures (v in r.model <==> v in s.model) && (v in r.manual <==> v in s.manual)
      ensures (v in r.effective <==> v in s.effective)
    {
      assert IsManual(events, v) <==> IsManual(shuffled, v);
      assert HasManual(events, v.Identity()) <==> HasManual(shuffled, v.Identity());
    }
    SameArrangement(r.model, s.model);
    SameArrangement(r.manual, s.manual);
    SameArrangement(r.effective, s.effective);
  }

  lemma SameArrangement(s: seq<LabelValue>, t: seq<LabelValue>)
    requires StrictlyAscending(LabelBefore, s) && StrictlyAscending(LabelBefore, t)
    requires forall v :: v in s <==> v in t
    ensures s == t
  {
    LabelOrder();
    StrictSameLength(LabelBefore, s, t);
    StrictArrangementUnique(LabelBefore, s, t);
  }
}
