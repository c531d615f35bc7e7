/** `sanitize_json` on JSON values, and what repeated rewriting of a cached result does. */
module Sanitizer {
  import opened Json

  const REDACTED := "[REDACTED]"
  const REDACTED_URL := "[REDACTED_URL]"

  /** Which keys name secrets and which strings are URLs that carry credentials. */
  datatype Rules = Rules(sensitive: string -> bool, credential: string -> bool)
  {
    /** The two markers are not URLs. */
    predicate Valid() { !credential(REDACTED) && !credential(REDACTED_URL) }
  }

  function Sanitize(rules: Rules, v: Json): Json {
    match v
    case Str(s) => if rules.credential(s) then Str(REDACTED_URL) else v
    case Arr(items) => Arr(seq(|items|, i requires 0 <= i < |items| => Sanitize(rules, items[i])))
    case Obj(fields) =>
      Obj(map k | k in fields :: if rules.sensitive(k) then Str(REDACTED) else Sanitize(rules, fields[k]))
    case _ => v
  }

  /** Sanitizing twice is sanitizing once. */
  lemma {:induction false} SanitizeIdempotent(rules: Rules, v: Json)
    requires rules.Valid()
    ensures Sanitize(rules, Sanitize(rules, v)) == Sanitize(rules, v)
  {
    match v
    case Arr(items) =>
      var once := Sanitize(rules, v).items;
      forall i | 0 <= i < |items| ensures Sanitize(rules, once[i]) == once[i] { SanitizeIdempotent(rules, items[i]); }
      assert Sanitize(rules, Arr(once)).items == once;
    case Obj(fields) =>
      var once := Sanitize(rules, v).fields;
      forall k | k in fields && !rules.sensitive(k) ensures Sanitize(rules, once[k]) == once[k] {
        SanitizeIdempotent(rules, fields[k]);
      }
      assert Sanitize(rules, Obj(once)).fields == once;
    case _ =>
  }

  /** No credential survives: a string that is a credential URL, or a value under a sensitive key, is replaced. */
  predicate Clean(rules: Rules, v: Json) {
    match v
    case Str(s) => !rules.credential(s)
    case Arr(items) => forall i | 0 <= i < |items| :: Clean(rules, items[i])
    case Obj(fields) =>
      forall k | k in fields :: if rules.sensitive(k) then fields[k] == Str(REDACTED) else Clean(rules, fields[k])
    case _ => true
  }

  lemma {:induction false} SanitizeCleans(rules: Rules, v: Json)
    requires rules.Valid()
    ensures Clean(rules, Sanitize(rules, v))
    ensures Clean(rules, v) ==> Sanitize(rules, v) == v
  {
    match v
    case Arr(items) =>
      forall i | 0 <= i < |items|
        ensures Clean(rules, Sanitize(rules, items[i]))
        ensures (Clean(rules, items[i]) ==> Sanitize(rules, items[i]) == items[i])
      {
        SanitizeCleans(rules, items[i]);
      }
      if Clean(rules, v) { assert Sanitize(rules, v).items == items; }
    case Obj(fields) =>
      forall k | k in fields
        ensures Clean(rules, Sanitize(rules, fields[k]))
        ensures (Clean(rules, fields[k]) ==> Sanitize(rules, fields[k]) == fields[k])
      {
        SanitizeCleans(rules, fields[k]);
      }
      if Clean(rules, v) { assert Sanitize(rules, v).fields == fields; }
    case _ =>
  }

  // ---------------------------------------------------------------- what is redacted, place by place

  /** One step into a value. */
  datatype Hop = Element(i: nat) | Field(k: string)

  function Down(v: Json, hop: Hop): Option<Json> {
    match hop
    case Element(i) => if v.Arr? && i < |v.items| then Some(v.items[i]) else None
    case Field(k) => if v.Obj? && k in v.fields then Some(v.fields[k]) else None
  }

  /** What stands at the end of a path. */
  function At(v: Json, path: seq<Hop>): Option<Json> {
    if path == [] then Some(v)
    else match Down(v, path[0]) case Some(next) => At(next, path[1..]) case None => None
  }

  predicate Hides(rules: Rules, hop: Hop) { hop.Field? && rules.sensitive(hop.k) }

  /** No key on the way is sensitive. */
  predicate Open(rules: Rules, path: seq<Hop>) { forall i | 0 <= i < |path| :: !Hides(rules, path[i]) }

  /** The same as it was, but for a credential URL; what is inside is another place. */
  predicate SameBut(rules: Rules, v: Json, w: Json) {
    match v
    case Str(s) => w == if rules.credential(s) then Str("[REDACTED_URL]") else v
    case Arr(items) => w.Arr? && |w.items| == |items|
    case Obj(fields) => w.Obj? && w.fields.Keys == fields.Keys
    case _ => w == v
  }

  lemma DownSanitized(rules: Rules, v: Json, hop: Hop)
    ensures Down(Sanitize(rules, v), hop).Some? <==> Down(v, hop).Some?
    ensures
      Down(v, hop).Some? ==>
        var below := Sanitize(rules, Down(v, hop).value);
        Down(Sanitize(rules, v), hop) == Some(if Hides(rules, hop) then Str("[REDACTED]") else below)
  {
  }

  /** Where no key on the way is sensitive, everything stays in place and as it was, but for credential URLs. */
  lemma {:induction false} OpenStays(rules: Rules, v: Json, path: seq<Hop>)
    requires Open(rules, path)
    ensures At(Sanitize(rules, v), path).Some? <==> At(v, path).Some?
    ensures At(v, path).Some? ==> SameBut(rules, At(v, path).value, At(Sanitize(rules, v), path).value)
  {
    if path != [] {
      DownSanitized(rules, v, path[0]);
      if Down(v, path[0]).Some? { OpenStays(rules, Down(v, path[0]).value, path[1..]); }
    }
  }

  /** Under the first sensitive key on the way there is only the marker, whatever was there. */
  lemma {:induction false} HiddenIsRedacted(rules: Rules, v: Json, path: seq<Hop>, key: string)
    requires Open(rules, path) && rules.sensitive(key)
    ensures At(Sanitize(rules, v), path + [Field(key)])
      == if At(v, path + [Field(key)]).Some? then Some(Str("[REDACTED]")) else None
  {
    var whole := path + [Field(key)];
    if path == [] {
      DownSanitized(rules, v, Field(key));
      assert whole[0] == Field(key) && whole[1..] == [];
    } else {
      DownSanitized(rules, v, path[0]);
      assert whole[0] == path[0] && whole[1..] == path[1..] + [Field(key)];
      if Down(v, path[0]).Some? { HiddenIsRedacted(rules, Down(v, path[0]).value, path[1..], key); }
    }
  }

  const TARGET_ID := "target_id"

  /** `_rewrite_cached_target` */
  function Rewrite(rules: Rules, v: Json, target: string): Json {
    var clean := Sanitize(rules, v);
    var fields := if clean.Obj? then clean.fields else map["value" := clean];
    Obj(fields[TARGET_ID := Str(target)])
  }

  /** However often a result is passed on, only the last target ID shows and the rest was sanitized once. */
  lemma RewriteTwice(rules: Rules, v: Json, first: string, second: string)
    requires rules.Valid() && v.Obj?
    ensures Rewrite(rules, Rewrite(rules, v, first), second) == Rewrite(rules, v, second)
  {
    SanitizeIdempotent(rules, v);
    var clean := Sanitize(rules, v).fields;
    assert Sanitize(rules, Obj(clean)).fields == clean;
    var passed := Sanitize(rules, Obj(clean[TARGET_ID := Str(first)])).fields;
    assert forall k | k in clean && k != TARGET_ID :: passed[k] == clean[k] by {
      forall k | k in clean && k != TARGET_ID ensures passed[k] == clean[k] {
        assert Sanitize(rules, Obj(clean)).fields[k] == clean[k];
      }
    }
    assert passed[TARGET_ID := Str(second)] == clean[TARGET_ID := Str(second)];
  }

  /** A cached result names its new target and keeps its other fields, sanitized; what is no object becomes one. */
  lemma RewriteMeans(rules: Rules, v: Json, target: string)
    ensures
      var w, clean := Rewrite(rules, v, target), Sanitize(rules, v);
      && w.Obj? && w.fields.Keys == (if v.Obj? then v.fields.Keys else {"value"}) + {"target_id"}
      && w.fields["target_id"] == Str(target)
      && (v.Obj? ==> forall k | k in v.fields && k != "target_id" :: Down(clean, Field(k)) == Some(w.fields[k]))
      && (!v.Obj? ==> w.fields["value"] == clean)
  {
    assert !v.Obj? ==> !Sanitize(rules, v).Obj?;
  }
}
