/** What the leaves of a routing condition answer, told from the fact's value and not from the evaluator. */
module ConditionLaws {
  import opened Json
  import opened Conditions
  import Ordering

  // ---------------------------------------------------------------- looking up a fact

  function Join(names: seq<string>): string
    requires names != []
  {
    if |names| == 1 then names[0] else names[0] + ['.'] + Join(names[1..])
  }

  predicate Undotted(names: seq<string>) { forall i | 0 <= i < |names| :: '.' !in names[i] }

  lemma {:induction false} SplitJoined(names: seq<string>)
    requires names != [] && Undotted(names)
    ensures Split(Join(names), '.') == names
  {
    if |names| == 1 {
      SplitSingle(names[0], '.');
    } else {
      SplitAtFirst(names[0], '.', Join(names[1..]));
      SplitJoined(names[1..]);
      assert names == [names[0]] + names[1..];
    }
  }

  /** From one object to the next by the names of a path. */
  predicate Chain(start: Json, names: seq<string>, values: seq<Json>) {
    && |values| == |names| + 1 && values[0] == start
    && forall i | 0 <= i < |names| ::
         values[i].Obj? && names[i] in values[i].fields && values[i + 1] == values[i].fields[names[i]]
  }

  lemma {:induction false} WalkFollows(start: Json, names: seq<string>, v: Json)
    ensures Walk(start, names) == Some(v) <==> exists values :: Chain(start, names, values) && values[|names|] == v
  {
    if names == [] {
      assert Chain(start, names, [start]);
    } else {
      if start.Obj? && names[0] in start.fields {
        var next := start.fields[names[0]];
        WalkFollows(next, names[1..], v);
        if values :| Chain(next, names[1..], values) && values[|names| - 1] == v {
          assert Chain(start, names, [start] + values);
        }
        if values :| Chain(start, names, values) && values[|names|] == v {
          assert Chain(next, names[1..], values[1..]);
        }
      }
    }
  }

  /** A fact is what the facts hold under its whole name, or else what its dotted path leads to. */
  lemma ResolveFollows(facts: Facts, names: seq<string>, v: Json)
    requires names != [] && Undotted(names)
    ensures Resolve(facts, Join(names)) == Some(v) <==>
      if Join(names) in facts then facts[Join(names)] == v
      else exists values :: Chain(Obj(facts), names, values) && values[|names|] == v
  {
    SplitJoined(names);
    WalkFollows(Obj(facts), names, v);
  }

  // ---------------------------------------------------------------- equality

  /** Booleans and integers as the numbers they are equal to. */
  function Canonical(j: Json): Json {
    match j
    case Bool(b) => Float(if b then 1.0 else 0.0)
    case Int(i) => Float(i as real)
    case Arr(items) => Arr(seq(|items|, i requires 0 <= i < |items| => Canonical(items[i])))
    case Obj(fields) => Obj(map k | k in fields :: Canonical(fields[k]))
    case _ => j
  }

  /** Python's `==` is equality once booleans and integers are taken for numbers. */
  lemma {:induction false} EqualMeans(a: Json, b: Json)
    ensures PyEqual(a, b) <==> Canonical(a) == Canonical(b)
    decreases a
  {
    match (a, b)
    case (Arr(s), Arr(t)) =>
      var u, v := Canonical(a).items, Canonical(b).items;
      forall i | 0 <= i < |s| && i < |t| ensures PyEqual(s[i], t[i]) <==> u[i] == v[i] { EqualMeans(s[i], t[i]); }
      assert u == v <==> |u| == |v| && forall i | 0 <= i < |u| :: u[i] == v[i];
    case (Obj(m), Obj(n)) =>
      var u, v := Canonical(a).fields, Canonical(b).fields;
      forall k | k in m && k in n ensures PyEqual(m[k], n[k]) <==> u[k] == v[k] { EqualMeans(m[k], n[k]); }
      assert u.Keys == m.Keys && v.Keys == n.Keys;
      assert u == v <==> u.Keys == v.Keys && forall k | k in u :: u[k] == v[k];
    case _ =>
  }

  ghost predicate Occurs(x: Json, items: seq<Json>) { exists y | y in items :: Canonical(y) == Canonical(x) }

  lemma InMeans(x: Json, items: seq<Json>)
    ensures PyIn(x, items) <==> Occurs(x, items)
  {
    forall i | 0 <= i < |items| ensures PyEqual(x, items[i]) <==> Canonical(items[i]) == Canonical(x) {
      EqualMeans(x, items[i]);
    }
    if Occurs(x, items) {
      var y :| y in items && Canonical(y) == Canonical(x);
      var i :| 0 <= i < |items| && items[i] == y;
      assert PyEqual(x, items[i]);
    }
  }

  // ---------------------------------------------------------------- leaves

  /** `exists` tells a value from a null, and does not know of a fact that is not there. */
  lemma ExistsMeans(fact: string, facts: Facts)
    ensures var answer := Eval(Exists(fact), facts);
      match Resolve(facts, fact)
      case None => answer == Unknown
      case Some(v) => if v == Null then answer == False else answer == True
  {
  }

  /** Without a value, or with null, no comparison is decided. */
  lemma MissingIsUnknown(fact: string, op: Operator, value: Json, facts: Facts)
    requires Resolve(facts, fact) in {None, Some(Null)}
    ensures Eval(Compare(fact, op, value), facts) == Unknown && Eval(LabelScore(fact, op, value), facts) == Unknown
  {
  }

  /** Values of different types are neither equal nor unequal; of one type they are one or the other. */
  lemma EqMeans(fact: string, value: Json, facts: Facts, actual: Json)
    requires Resolve(facts, fact) == Some(actual) && actual != Null
    ensures var eq, neq := Eval(Compare(fact, Eq, value), facts), Eval(Compare(fact, Neq, value), facts);
      if SameType(actual, value) then
        && eq == (if Canonical(actual) == Canonical(value) then True else False)
        && neq == (if Canonical(actual) == Canonical(value) then False else True)
      else eq == neq == Unknown
  {
    EqualMeans(actual, value);
  }

  predicate Decides(answer: Truth, holds: bool) { answer == if holds then True else False }

  /** Numbers compare by value, whole or not; a boolean is no number here. */
  lemma NumbersCompare(fact: string, value: Json, facts: Facts, actual: Json)
    requires Resolve(facts, fact) == Some(actual) && (actual.Int? || actual.Float?) && (value.Int? || value.Float?)
    ensures var a, b := actual.Numeric(), value.Numeric();
      && Decides(Eval(Compare(fact, Gt, value), facts), a > b)
      && Decides(Eval(Compare(fact, Gte, value), facts), a >= b)
      && Decides(Eval(Compare(fact, Lt, value), facts), a < b)
      && Decides(Eval(Compare(fact, Lte, value), facts), a <= b)
      && forall op | op in {Gt, Gte, Lt, Lte} ::
           Eval(LabelScore(fact, op, value), facts) == Eval(Compare(fact, op, value), facts)
  {
  }

  /** The first difference decides, and a beginning comes before the whole. */
  ghost predicate ComesBefore(a: string, b: string) {
    exists n: nat :: Ordering.SmallerAt(Ordering.CharLess, a, b, n)
  }

  lemma ComesBeforeMeans(a: string, b: string)
    ensures Ordering.StringLess(a, b) <==> ComesBefore(a, b)
    ensures a == b ==> !ComesBefore(a, b)
    ensures a != b ==> (ComesBefore(a, b) <==> !ComesBefore(b, a))
  {
    Ordering.StringLessMeans(a, b);
    Ordering.StringLessMeans(b, a);
    Ordering.StringLessTotal(a, b);
  }

  /** Strings compare by their first difference. */
  lemma StringsCompare(fact: string, value: Json, facts: Facts, actual: Json)
    requires Resolve(facts, fact) == Some(actual) && actual.Str? && value.Str?
    ensures var a, b := actual.s, value.s;
      && Decides(Eval(Compare(fact, Gt, value), facts), ComesBefore(b, a))
      && Decides(Eval(Compare(fact, Gte, value), facts), ComesBefore(b, a) || a == b)
      && Decides(Eval(Compare(fact, Lt, value), facts), ComesBefore(a, b))
      && Decides(Eval(Compare(fact, Lte, value), facts), ComesBefore(a, b) || a == b)
      && forall op :: Eval(LabelScore(fact, op, value), facts) == Unknown
  {
    ComesBeforeMeans(actual.s, value.s);
    ComesBeforeMeans(value.s, actual.s);
  }

  /** Anything else has no order. */
  lemma OthersDoNotCompare(fact: string, op: Operator, value: Json, facts: Facts, actual: Json)
    requires Resolve(facts, fact) == Some(actual) && op in {Gt, Gte, Lt, Lte}
    requires !((actual.Int? || actual.Float?) && (value.Int? || value.Float?)) && !(actual.Str? && value.Str?)
    ensures Eval(Compare(fact, op, value), facts) == Unknown && Eval(LabelScore(fact, op, value), facts) == Unknown
  {
  }

  /** `in` asks whether the value occurs in the list. */
  lemma InListMeans(fact: string, value: Json, facts: Facts, actual: Json)
    requires Resolve(facts, fact) == Some(actual) && actual != Null
    ensures var answer := Eval(Compare(fact, In, value), facts);
      if value.Arr? then Decides(answer, Occurs(actual, value.items)) else answer == Unknown
  {
    if value.Arr? { InMeans(actual, value.items); }
  }

  lemma SubstringMeans(part: string, whole: string)
    ensures IsSubstring(part, whole) <==> exists before, after :: whole == before + part + after
  {
    if IsSubstring(part, whole) {
      var i :| 0 <= i <= |whole| && part <= whole[i..];
      assert whole == whole[..i] + part + whole[i + |part|..];
    }
    if before, after :| whole == before + part + after {
      assert part <= whole[|before|..];
    }
  }

  /** `contains` asks a string for a part and a list for an element. */
  lemma ContainsMeans(fact: string, value: Json, facts: Facts, actual: Json)
    requires Resolve(facts, fact) == Some(actual)
    ensures var answer := Eval(Compare(fact, Contains, value), facts);
      if actual.Str? && value.Str? then Decides(answer, exists before, after :: actual.s == before + value.s + after)
      else if actual.Arr? then Decides(answer, Occurs(value, actual.items))
      else answer == Unknown
  {
    if actual.Str? && value.Str? { SubstringMeans(value.s, actual.s); }
    if actual.Arr? { InMeans(value, actual.items); }
  }

  /** `starts_with` asks a string for its beginning. */
  lemma StartsWithMeans(fact: string, value: Json, facts: Facts, actual: Json)
    requires Resolve(facts, fact) == Some(actual)
    ensures var answer := Eval(Compare(fact, StartsWith, value), facts);
      if actual.Str? && value.Str? then Decides(answer, exists rest :: actual.s == value.s + rest)
      else answer == Unknown
  {
    if actual.Str? && value.Str? && value.s <= actual.s { assert actual.s == value.s + actual.s[|value.s|..]; }
  }

  /** `label_present` asks for a number from a minimum on. */
  lemma LabelPresentMeans(fact: string, minimum: Json, facts: Facts)
    requires minimum.Int? || minimum.Float?
    ensures var answer := Eval(LabelPresent(fact, minimum), facts);
      match Resolve(facts, fact)
      case Some(Int(i)) => Decides(answer, i as real >= minimum.Numeric())
      case Some(Float(r)) => Decides(answer, r >= minimum.Numeric())
      case _ => answer == Unknown
  {
  }

  // ---------------------------------------------------------------- validation

  /** The condition that a path of child positions leads to. */
  function Below(c: Condition, path: seq<nat>): Option<Condition>
    decreases c
  {
    if path == [] then Some(c)
    else
      match c
      case All(children) => if path[0] < |children| then Below(children[path[0]], path[1..]) else None
      case Any(children) => if path[0] < |children| then Below(children[path[0]], path[1..]) else None
      case Not(child) => if path[0] == 0 then Below(child, path[1..]) else None
      case _ => None
  }

  predicate FactOk(fact: string, allowed: Option<set<string>>) {
    IsFactKey(fact) && (allowed.Some? ==> fact in allowed.value)
  }

  predicate QueryOk(q: LabelQuery) {
    && (q.namespace == "model" || q.namespace == "manual" || q.namespace == "effective") && !Blank(q.key)
    && (q.test.Score? ==>
          && !q.test.op.Neq? && !q.test.op.In? && !q.test.op.Contains? && !q.test.op.StartsWith?
          && (q.test.threshold.Int? || q.test.threshold.Float?) && 0.0 <= q.test.threshold.Numeric() <= 1.0)
  }

  /** What a condition has to meet by itself. */
  predicate WellFormed(c: Condition, allowed: Option<set<string>>) {
    match c
    case Exists(fact) => FactOk(fact, allowed)
    case Compare(fact, op, value) => FactOk(fact, allowed) && (op.In? ==> value.Arr?)
    case All(children) => |children| > 0
    case Any(children) => |children| > 0
    case Not(_) => true
    case Label(q) => QueryOk(q)
    case AnyMedia(q) => QueryOk(q)
    case NoneMedia(q) => QueryOk(q)
    case LabelScore(fact, op, value) =>
      && FactOk(fact, allowed) && !op.Contains? && !op.StartsWith? && (value.Int? || value.Float?)
      && (op.In? ==> value.Arr?)
    case LabelPresent(fact, minimum) =>
      FactOk(fact, allowed) && (minimum.Int? || minimum.Float?) && 0.0 <= minimum.Numeric() <= 1.0
  }

  /** Every condition inside, to whatever depth, is well formed and at most twenty levels down. */
  ghost predicate AllWellFormed(c: Condition, allowed: Option<set<string>>, depth: nat) {
    forall path: seq<nat> | Below(c, path).Some? :: depth + |path| <= 20 && WellFormed(Below(c, path).value, allowed)
  }

  lemma ChildrenWellFormed(c: Condition, children: seq<Condition>, allowed: Option<set<string>>, depth: nat)
    requires c == All(children) || c == Any(children)
    ensures AllWellFormed(c, allowed, depth) <==>
      && depth <= 20 && children != []
      && forall i | 0 <= i < |children| :: AllWellFormed(children[i], allowed, depth + 1)
  {
    assert Below(c, []) == Some(c);
    if AllWellFormed(c, allowed, depth) {
      forall i, path: seq<nat> | 0 <= i < |children| && Below(children[i], path).Some?
        ensures depth + 1 + |path| <= 20 && WellFormed(Below(children[i], path).value, allowed)
      {
        assert ([i] + path)[1..] == path && Below(c, [i] + path) == Below(children[i], path);
      }
    } else {
      var path: seq<nat> :| Below(c, path).Some?
        && !(depth + |path| <= 20 && WellFormed(Below(c, path).value, allowed));
      if path != [] { assert Below(children[path[0]], path[1..]) == Below(c, path); }
    }
  }

  lemma NegatedWellFormed(child: Condition, allowed: Option<set<string>>, depth: nat)
    ensures AllWellFormed(Not(child), allowed, depth) <==> depth <= 20 && AllWellFormed(child, allowed, depth + 1)
  {
    var c := Not(child);
    assert Below(c, []) == Some(c);
    if AllWellFormed(c, allowed, depth) {
      forall path: seq<nat> | Below(child, path).Some?
        ensures depth + 1 + |path| <= 20 && WellFormed(Below(child, path).value, allowed)
      {
        assert ([0] + path)[1..] == path && Below(c, [0] + path) == Below(child, path);
      }
    } else {
      var path: seq<nat> :| Below(c, path).Some?
        && !(depth + |path| <= 20 && WellFormed(Below(c, path).value, allowed));
      if path != [] { assert Below(child, path[1..]) == Below(c, path); }
    }
  }

  /** A condition is valid exactly when everything inside it is well formed and not too deep. */
  lemma {:induction false} ValidExactly(c: Condition, allowed: Option<set<string>>, depth: nat)
    ensures Valid(c, allowed, depth) <==> AllWellFormed(c, allowed, depth)
    decreases c, 1
  {
    match c
    case All(children) => ChildrenExactly(c, children, allowed, depth);
    case Any(children) => ChildrenExactly(c, children, allowed, depth);
    case Not(child) =>
      ValidExactly(child, allowed, depth + 1);
      NegatedWellFormed(child, allowed, depth);
    case _ => LeafWellFormed(c, allowed, depth);
  }

  lemma {:induction false} ChildrenExactly(c: Condition, children: seq<Condition>, allowed: Option<set<string>>,
      depth: nat)
    requires c == All(children) || c == Any(children)
    ensures Valid(c, allowed, depth) <==> AllWellFormed(c, allowed, depth)
    decreases c, 0
  {
    forall i | 0 <= i < |children|
      ensures Valid(children[i], allowed, depth + 1) <==> AllWellFormed(children[i], allowed, depth + 1)
    {
      ValidExactly(children[i], allowed, depth + 1);
    }
    ChildrenWellFormed(c, children, allowed, depth);
  }

  lemma LeafWellFormed(c: Condition, allowed: Option<set<string>>, depth: nat)
    requires !c.All? && !c.Any? && !c.Not?
    ensures AllWellFormed(c, allowed, depth) <==> depth <= 20 && WellFormed(c, allowed)
  {
    assert Below(c, []) == Some(c);
  }
}
