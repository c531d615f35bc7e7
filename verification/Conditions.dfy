/** The routing condition language: validation, and evaluation in three-valued logic. */
module Conditions {
  import opened Json
  import Ordering

  datatype Truth = True | False | Unknown

  datatype Operator = Eq | Neq | Gt | Gte | Lt | Lte | In | Contains | StartsWith

  /** What a label node asks: its `activated` flag, or one score comparison. */
  datatype LabelTest = Activated | Score(op: Operator, threshold: Json)

  datatype LabelQuery = LabelQuery(namespace: string, key: string, test: LabelTest)

  datatype Condition =
    | Exists(fact: string)
    | Compare(fact: string, op: Operator, value: Json)
    | All(children: seq<Condition>)
    | Any(children: seq<Condition>)
    | Not(child: Condition)
    | Label(query: LabelQuery)
    | AnyMedia(query: LabelQuery)
    | NoneMedia(query: LabelQuery)
    | LabelScore(fact: string, op: Operator, value: Json)
    | LabelPresent(fact: string, minimum: Json)

  const MAX_DEPTH := 20

  // ---------------------------------------------------------------- validation

  predicate IdentifierStart(c: char) { 'A' <= c <= 'Z' || 'a' <= c <= 'z' || c == '_' }

  predicate IsIdentifier(s: string) {
    s != "" && IdentifierStart(s[0]) && forall i | 0 <= i < |s| :: IdentifierStart(s[i]) || '0' <= s[i] <= '9'
  }

  predicate IsFactKey(fact: string) {
    forall i | 0 <= i < |Split(fact, '.')| :: IsIdentifier(Split(fact, '.')[i])
  }

  predicate FactAllowed(fact: string, allowed: Option<set<string>>) {
    IsFactKey(fact) && (allowed.Some? ==> fact in allowed.value)
  }

  predicate UnitInterval(v: Json) { v.IsNumber() && 0.0 <= v.Numeric() <= 1.0 }

  predicate LabelQueryValid(q: LabelQuery) {
    && q.namespace in {"model", "manual", "effective"}
    && !Blank(q.key)
    && (q.test.Score? ==> q.test.op in {Gt, Gte, Lt, Lte, Eq} && UnitInterval(q.test.threshold))
  }

  predicate Valid(c: Condition, allowed: Option<set<string>>, depth: nat)
    decreases c
  {
    && depth <= MAX_DEPTH
    && match c
       case Exists(fact) => FactAllowed(fact, allowed)
       case Compare(fact, op, value) => FactAllowed(fact, allowed) && (op == In ==> value.Arr?)
       case All(children) => children != [] && forall i | 0 <= i < |children| :: Valid(children[i], allowed, depth + 1)
       case Any(children) => children != [] && forall i | 0 <= i < |children| :: Valid(children[i], allowed, depth + 1)
       case Not(child) => Valid(child, allowed, depth + 1)
       case Label(q) => LabelQueryValid(q)
       case AnyMedia(q) => LabelQueryValid(q)
       case NoneMedia(q) => LabelQueryValid(q)
       case LabelScore(fact, op, value) =>
         FactAllowed(fact, allowed) && op !in {Contains, StartsWith} && value.IsNumber() && (op == In ==> value.Arr?)
       case LabelPresent(fact, minimum) => FactAllowed(fact, allowed) && UnitInterval(minimum)
  }

  /** The facts read by fact-based leaves; label and media nodes name labels instead. */
  function FactKeys(c: Condition): set<string> {
    match c
    case Exists(fact) => {fact}
    case Compare(fact, _, _) => {fact}
    case All(children) => set i, f | 0 <= i < |children| && f in FactKeys(children[i]) :: f
    case Any(children) => set i, f | 0 <= i < |children| && f in FactKeys(children[i]) :: f
    case Not(child) => FactKeys(child)
    case LabelScore(fact, _, _) => {fact}
    case LabelPresent(fact, _) => {fact}
    case _ => {}
  }

  lemma {:induction false} ValidFactsAllowed(c: Condition, allowed: set<string>, depth: nat)
    requires Valid(c, Some(allowed), depth)
    ensures FactKeys(c) <= allowed
    decreases c
  {
    match c
    case All(children) =>
      forall i | 0 <= i < |children| ensures FactKeys(children[i]) <= allowed {
        ValidFactsAllowed(children[i], allowed, depth + 1);
      }
    case Any(children) =>
      forall i | 0 <= i < |children| ensures FactKeys(children[i]) <= allowed {
        ValidFactsAllowed(children[i], allowed, depth + 1);
      }
    case Not(child) => ValidFactsAllowed(child, allowed, depth + 1);
    case _ =>
  }

  // ---------------------------------------------------------------- evaluation

  type Facts = map<string, Json>

  function Walk(current: Json, path: seq<string>): Option<Json> {
    if path == [] then Some(current)
    else if current.Obj? && path[0] in current.fields then Walk(current.fields[path[0]], path[1..])
    else None
  }

  /** A flat key shadows the nested path of the same name. */
  function Resolve(facts: Facts, fact: string): Option<Json> {
    if fact in facts then Some(facts[fact]) else Walk(Obj(facts), Split(fact, '.'))
  }

  function OfBool(b: bool): Truth { if b then True else False }

  predicate Before(op: Operator, less: bool, equal: bool)
    requires op in {Gt, Gte, Lt, Lte}
  {
    match op
    case Gt => !less && !equal
    case Gte => !less
    case Lt => less
    case Lte => less || equal
  }

  predicate IsSubstring(part: string, whole: string) {
    exists i | 0 <= i <= |whole| :: part <= whole[i..]
  }

  function CompareValues(actual: Option<Json>, op: Operator, expected: Json, numericOnly: bool): Truth {
    if actual.None? || actual.value.Null? then Unknown
    else
      var a := actual.value;
      if numericOnly && !(a.IsNumber() && expected.IsNumber()) then Unknown
      else match op
        case Eq => if SameType(a, expected) then OfBool(PyEqual(a, expected)) else Unknown
        case Neq => if SameType(a, expected) then OfBool(!PyEqual(a, expected)) else Unknown
        case In => if expected.Arr? then OfBool(PyIn(a, expected.items)) else Unknown
        case Contains =>
          if a.Str? then (if expected.Str? then OfBool(IsSubstring(expected.s, a.s)) else Unknown)
          else if a.Arr? then OfBool(PyIn(expected, a.items))
          else Unknown
        case StartsWith => if a.Str? && expected.Str? then OfBool(expected.s <= a.s) else Unknown
        case _ =>
          if a.IsNumber() && expected.IsNumber() then
            OfBool(Before(op, a.Numeric() < expected.Numeric(), a.Numeric() == expected.Numeric()))
          else if a.Str? && expected.Str? then
            OfBool(Before(op, Ordering.StringLess(a.s, expected.s), a.s == expected.s))
          else Unknown
  }

  function TestLabel(test: LabelTest, found: Option<Json>): Truth {
    if found.None? || !found.value.Obj? then Unknown
    else
      var fields := found.value.fields;
      match test
      case Activated =>
        if "activated" in fields && fields["activated"].Bool? then OfBool(fields["activated"].b) else Unknown
      case Score(op, threshold) =>
        CompareValues(if "score" in fields then Some(fields["score"]) else None, op, threshold, true)
  }

  function GlobalLabel(q: LabelQuery, facts: Facts): Truth {
    TestLabel(q.test, Resolve(facts, "labels." + q.namespace + ".global." + q.key))
  }

  /** A null media entry is taken for "no entry" and falls back to the global label. */
  function MediaLabel(q: LabelQuery, facts: Facts, entry: Json): Truth {
    if entry.Null? then GlobalLabel(q, facts)
    else if !entry.Obj? then Unknown
    else
      var labels := if "labels" in entry.fields then entry.fields["labels"] else Null;
      TestLabel(q.test, if labels.Obj? && q.key in labels.fields then Some(labels.fields[q.key]) else None)
  }

  function MediaEntries(q: LabelQuery, facts: Facts): Option<map<string, Json>> {
    var media := Resolve(facts, "labels." + q.namespace + ".media");
    if media.Some? && media.value.Obj? then Some(media.value.fields) else None
  }

  function Negate(t: Truth): Truth {
    match t case True => False case False => True case Unknown => Unknown
  }

  /** Strong Kleene conjunction and disjunction of all the values that occur. */
  function Conjunction(values: set<Truth>): Truth {
    if False in values then False else if Unknown in values then Unknown else True
  }

  function Disjunction(values: set<Truth>): Truth {
    if True in values then True else if Unknown in values then Unknown else False
  }

  function Eval(c: Condition, facts: Facts): Truth
    decreases c
  {
    match c
    case Exists(fact) =>
      var actual := Resolve(facts, fact);
      if actual.None? then Unknown else OfBool(!actual.value.Null?)
    case Compare(fact, op, value) => CompareValues(Resolve(facts, fact), op, value, false)
    case All(children) => Conjunction(set i | 0 <= i < |children| :: Eval(children[i], facts))
    case Any(children) => Disjunction(set i | 0 <= i < |children| :: Eval(children[i], facts))
    case Not(child) => Negate(Eval(child, facts))
    case Label(q) => GlobalLabel(q, facts)
    case AnyMedia(q) =>
      var media := MediaEntries(q, facts);
      if media.None? then Unknown else Disjunction(set k | k in media.value :: MediaLabel(q, facts, media.value[k]))
    case NoneMedia(q) =>
      var media := MediaEntries(q, facts);
      if media.None? then Unknown
      else Conjunction(set k | k in media.value :: Negate(MediaLabel(q, facts, media.value[k])))
    case LabelScore(fact, op, value) => CompareValues(Resolve(facts, fact), op, value, true)
    case LabelPresent(fact, minimum) =>
      var actual := Resolve(facts, fact);
      if actual.None? || !actual.value.IsNumber() || !minimum.IsNumber() then Unknown
      else OfBool(actual.value.Numeric() >= minimum.Numeric())
  }

  predicate Holds(c: Condition, facts: Facts) {
    Valid(c, None, 0) && Eval(c, facts) == True
  }

  // ---------------------------------------------------------------- the evaluator's loops

  /** `_evaluate`: children are visited in order with early exit, media entries in any order. */
  method Evaluate(c: Condition, facts: Facts) returns (result: Truth)
    ensures result == Eval(c, facts)
    decreases c
  {
    match c
    case All(children) =>
      var sawUnknown := false;
      for n := 0 to |children|
        invariant forall i | 0 <= i < n :: Eval(children[i], facts) != False
        invariant sawUnknown <==> exists i | 0 <= i < n :: Eval(children[i], facts) == Unknown
      {
        var child := Evaluate(children[n], facts);
        if child == False { return False; }
        sawUnknown := sawUnknown || child == Unknown;
      }
      return if sawUnknown then Unknown else True;
    case Any(children) =>
      var sawUnknown := false;
      for n := 0 to |children|
        invariant forall i | 0 <= i < n :: Eval(children[i], facts) != True
        invariant sawUnknown <==> exists i | 0 <= i < n :: Eval(children[i], facts) == Unknown
      {
        var child := Evaluate(children[n], facts);
        if child == True { return True; }
        sawUnknown := sawUnknown || child == Unknown;
      }
      return if sawUnknown then Unknown else False;
    case Not(child) =>
      var inner := Evaluate(child, facts);
      return if inner == Unknown then Unknown else if inner == True then False else True;
    case AnyMedia(q) => result := EvaluateMedia(q, facts, false);
    case NoneMedia(q) => result := EvaluateMedia(q, facts, true);
    case _ => result := Eval(c, facts);
  }

  method EvaluateMedia(q: LabelQuery, facts: Facts, none: bool) returns (result: Truth)
    ensures result == Eval(if none then NoneMedia(q) else AnyMedia(q), facts)
  {
    var media := MediaEntries(q, facts);
    if media.None? { return Unknown; }
    var entries := media.value;
    var sawUnknown, remaining := false, entries.Keys;
    while remaining != {}
      invariant remaining <= entries.Keys
      invariant forall k | k in entries.Keys - remaining :: MediaLabel(q, facts, entries[k]) != True
      invariant sawUnknown <==> exists k | k in entries.Keys - remaining :: MediaLabel(q, facts, entries[k]) == Unknown
      decreases remaining
    {
      var k :| k in remaining;
      var entry := MediaLabel(q, facts, entries[k]);
      if entry == True { return if none then False else True; }
      sawUnknown := sawUnknown || entry == Unknown;
      remaining := remaining - {k};
    }
    result := if sawUnknown then Unknown else OfBool(none);
  }

  // ---------------------------------------------------------------- laws

  /** Facts may grow as long as every path that already resolves keeps its value. */
  ghost predicate Enriches(facts: Facts, richer: Facts) {
    forall path: string :: Resolve(facts, path).Some? ==> Resolve(richer, path) == Resolve(facts, path)
  }

  /** A definite answer is final: more facts can only decide what was unknown. */
  lemma {:induction false} DefiniteAnswersSurvive(c: Condition, facts: Facts, richer: Facts)
    requires Enriches(facts, richer)
    ensures Eval(c, facts) != Unknown ==> Eval(c, richer) == Eval(c, facts)
    decreases c
  {
    match c
    case All(children) =>
      forall i | 0 <= i < |children|
        ensures Eval(children[i], facts) != Unknown ==> Eval(children[i], richer) == Eval(children[i], facts)
      {
        DefiniteAnswersSurvive(children[i], facts, richer);
      }
      ConjunctionOfChildren(children, facts);
      ConjunctionOfChildren(children, richer);
    case Any(children) =>
      forall i | 0 <= i < |children|
        ensures Eval(children[i], facts) != Unknown ==> Eval(children[i], richer) == Eval(children[i], facts)
      {
        DefiniteAnswersSurvive(children[i], facts, richer);
      }
      DisjunctionOfChildren(children, facts);
      DisjunctionOfChildren(children, richer);
    case Not(child) => DefiniteAnswersSurvive(child, facts, richer);
    case AnyMedia(q) => MediaAnswersSurvive(q, facts, richer);
    case NoneMedia(q) =>
      MediaAnswersSurvive(q, facts, richer);
      NoneMediaNegatesAnyMedia(q, facts);
      NoneMediaNegatesAnyMedia(q, richer);
    case _ =>
  }

  lemma MediaAnswersSurvive(q: LabelQuery, facts: Facts, richer: Facts)
    requires Enriches(facts, richer)
    ensures Eval(AnyMedia(q), facts) != Unknown ==> Eval(AnyMedia(q), richer) == Eval(AnyMedia(q), facts)
  {
    var media := MediaEntries(q, facts);
    if media.Some? {
      assert MediaEntries(q, richer) == media;
      var entries := media.value;
      assert forall k | k in entries :: MediaLabel(q, facts, entries[k]) != Unknown ==>
        MediaLabel(q, richer, entries[k]) == MediaLabel(q, facts, entries[k]);
    }
  }

  lemma ConjunctionOfChildren(children: seq<Condition>, facts: Facts)
    ensures Eval(All(children), facts) == True <==> forall i | 0 <= i < |children| :: Eval(children[i], facts) == True
    ensures Eval(All(children), facts) == False <==> exists i | 0 <= i < |children| :: Eval(children[i], facts) == False
  {}

  lemma DisjunctionOfChildren(children: seq<Condition>, facts: Facts)
    ensures Eval(Any(children), facts) == True <==> exists i | 0 <= i < |children| :: Eval(children[i], facts) == True
    ensures Eval(Any(children), facts) == False <==> forall i | 0 <= i < |children| :: Eval(children[i], facts) == False
  {}

  /** The order of the children of `all` and `any` is irrelevant, and so are repetitions. */
  lemma ChildOrderIrrelevant(left: seq<Condition>, right: seq<Condition>, facts: Facts)
    requires forall c :: c in left <==> c in right
    ensures Eval(All(left), facts) == Eval(All(right), facts)
    ensures Eval(Any(left), facts) == Eval(Any(right), facts)
  {
    var l := set i | 0 <= i < |left| :: Eval(left[i], facts);
    var r := set i | 0 <= i < |right| :: Eval(right[i], facts);
    forall t ensures t in l <==> t in r {
      if t in l { var i :| 0 <= i < |left| && Eval(left[i], facts) == t; assert left[i] in right; }
      if t in r { var i :| 0 <= i < |right| && Eval(right[i], facts) == t; assert right[i] in left; }
    }
    assert l == r;
  }

  function NegateAll(children: seq<Condition>): (negated: seq<Condition>)
    ensures |negated| == |children|
    ensures forall i | 0 <= i < |children| :: negated[i] == Not(children[i])
  {
    seq(|children|, i requires 0 <= i < |children| => Not(children[i]))
  }

  /**
   * Children that answer the opposite: their disjunction answers the
   * opposite of the conjunction, and the other way round.
   */
  lemma OppositeChildren(children: seq<Condition>, negated: seq<Condition>, facts: Facts)
    requires |negated| == |children|
    requires forall i | 0 <= i < |children| :: Eval(negated[i], facts) == Negate(Eval(children[i], facts))
    ensures Eval(Any(negated), facts) == Negate(Eval(All(children), facts))
    ensures Eval(All(negated), facts) == Negate(Eval(Any(children), facts))
  {
    ConjunctionOfChildren(children, facts);
    DisjunctionOfChildren(children, facts);
    ConjunctionOfChildren(negated, facts);
    DisjunctionOfChildren(negated, facts);
  }

  /** De Morgan's laws hold with `unknown` as a third value. */
  lemma DeMorgan(children: seq<Condition>, facts: Facts)
    ensures Eval(Not(All(children)), facts) == Eval(Any(NegateAll(children)), facts)
    ensures Eval(Not(Any(children)), facts) == Eval(All(NegateAll(children)), facts)
  {
    var negated := NegateAll(children);
    forall i | 0 <= i < |children|
      ensures Eval(negated[i], facts) == Negate(Eval(children[i], facts))
    {}
    OppositeChildren(children, negated, facts);
  }

  /** `none_media` is the negation of `any_media`, on every facts object. */
  lemma NoneMediaNegatesAnyMedia(q: LabelQuery, facts: Facts)
    ensures Eval(NoneMedia(q), facts) == Eval(Not(AnyMedia(q)), facts)
  {
    var media := MediaEntries(q, facts);
    if media.Some? {
      var entries := media.value;
      var plain := set k | k in entries :: MediaLabel(q, facts, entries[k]);
      var negated := set k | k in entries :: Negate(MediaLabel(q, facts, entries[k]));
      forall t ensures t in plain <==> Negate(t) in negated {
        if Negate(t) in negated {
          var k :| k in entries && Negate(MediaLabel(q, facts, entries[k])) == Negate(t);
          assert MediaLabel(q, facts, entries[k]) == t;
        }
      }
      assert True in plain <==> Negate(True) in negated;
      assert Unknown in plain <==> Negate(Unknown) in negated;
    }
  }

  /** So a match never disappears, and a matched negation never turns into a match, because of a fact nobody had yet. */
  lemma MatchesSurvive(c: Condition, facts: Facts, richer: Facts)
    requires Enriches(facts, richer)
    ensures Holds(c, facts) ==> Holds(c, richer)
    ensures Valid(Not(c), None, 0) && Holds(Not(c), facts) ==> !Holds(c, richer)
  {
    DefiniteAnswersSurvive(c, facts, richer);
  }
}
