/** JSON values as Python holds them: integers, floats and booleans are different types that compare by value. */
module Json {

  datatype Option<+T> = None | Some(value: T)

  datatype Result<+T> = Ok(value: T) | Err(error: string)

  datatype Json =
    | Null
    | Bool(b: bool)
    | Int(i: int)
    | Float(r: real)
    | Str(s: string)
    | Arr(items: seq<Json>)
    | Obj(fields: map<string, Json>)
  {
    /** A `Real` that is not a `bool`. */
    predicate IsNumber() { Int? || Float? }

    /** The number Python compares; `True` and `False` compare as 1 and 0. */
    function Numeric(): real
      requires Bool? || IsNumber()
    {
      match this
      case Bool(b) => if b then 1.0 else 0.0
      case Int(i) => i as real
      case Float(r) => r
    }
  }

  /** `type(a) is type(b)` */
  predicate SameType(a: Json, b: Json) {
    || (a.Null? && b.Null?) || (a.Bool? && b.Bool?) || (a.Int? && b.Int?) || (a.Float? && b.Float?)
    || (a.Str? && b.Str?) || (a.Arr? && b.Arr?) || (a.Obj? && b.Obj?)
  }

  /** `a == b`: numbers and booleans by value, containers element by element. */
  predicate PyEqual(a: Json, b: Json) {
    match (a, b)
    case (Str(s), Str(t)) => s == t
    case (Null, Null) => true
    case (Arr(s), Arr(t)) => |s| == |t| && forall i | 0 <= i < |s| :: PyEqual(s[i], t[i])
    case (Obj(m), Obj(n)) => m.Keys == n.Keys && forall k | k in m :: PyEqual(m[k], n[k])
    case _ => (a.Bool? || a.IsNumber()) && (b.Bool? || b.IsNumber()) && a.Numeric() == b.Numeric()
  }

  /** `x in items` */
  predicate PyIn(x: Json, items: seq<Json>) {
    exists i | 0 <= i < |items| :: PyEqual(x, items[i])
  }

  // ---------------------------------------------------------------- strings

  /** `s.split(c)` */
  function Split(s: string, c: char): (parts: seq<string>)
    ensures |parts| >= 1
  {
    if s == "" then [""]
    else
      var rest := Split(s[1..], c);
      if s[0] == c then [""] + rest else [[s[0]] + rest[0]] + rest[1..]
  }

  lemma {:induction false} SplitSingle(s: string, c: char)
    requires c !in s
    ensures Split(s, c) == [s]
  {
    if s != "" {
      assert s[0] in s && forall x :: x in s[1..] ==> x in s;
      SplitSingle(s[1..], c);
      assert [s[0]] + s[1..] == s;
    }
  }

  lemma {:induction false} SplitAtFirst(head: string, c: char, tail: string)
    requires c !in head
    ensures Split(head + [c] + tail, c) == [head] + Split(tail, c)
  {
    var whole := head + [c] + tail;
    if head == "" {
      assert whole[1..] == tail;
    } else {
      assert head[0] in head && forall x :: x in head[1..] ==> x in head;
      SplitAtFirst(head[1..], c, tail);
      assert whole[1..] == head[1..] + [c] + tail;
      assert [head[0]] + head[1..] == head;
    }
  }

  /** The characters `str.strip` removes. */
  predicate IsSpace(c: char) {
    var code := c as int;
    || 9 <= code <= 13 || 28 <= code <= 32 || code in {0x85, 0xA0, 0x1680, 0x2028, 0x2029, 0x202F, 0x205F, 0x3000}
    || 0x2000 <= code <= 0x200A
  }

  function TrimLeft(s: string): string {
    if s != "" && IsSpace(s[0]) then TrimLeft(s[1..]) else s
  }

  function TrimRight(s: string): string {
    if s != "" && IsSpace(s[|s| - 1]) then TrimRight(s[..|s| - 1]) else s
  }

  /** `s.strip()` */
  function Strip(s: string): string { TrimRight(TrimLeft(s)) }

  predicate Blank(s: string) { Strip(s) == "" }

  lemma {:induction false} TrimLeftStops(s: string)
    ensures TrimLeft(s) == "" || !IsSpace(TrimLeft(s)[0])
  {
    if s != "" && IsSpace(s[0]) { TrimLeftStops(s[1..]); }
  }

  lemma {:induction false} TrimRightStops(s: string)
    ensures TrimRight(s) <= s
    ensures TrimRight(s) == "" || !IsSpace(TrimRight(s)[|TrimRight(s)| - 1])
  {
    if s != "" && IsSpace(s[|s| - 1]) { TrimRightStops(s[..|s| - 1]); }
  }

  predicate AllSpaces(s: string) { forall c | c in s :: IsSpace(c) }

  lemma {:induction false} TrimLeftCuts(s: string)
    ensures exists cut: string :: AllSpaces(cut) && s == cut + TrimLeft(s)
  {
    if s != "" && IsSpace(s[0]) {
      TrimLeftCuts(s[1..]);
      var cut: string :| AllSpaces(cut) && s[1..] == cut + TrimLeft(s[1..]);
      assert AllSpaces([s[0]] + cut) && s == [s[0]] + cut + TrimLeft(s);
    } else {
      assert AllSpaces("") && s == "" + TrimLeft(s);
    }
  }

  lemma {:induction false} TrimRightCuts(s: string)
    ensures exists cut: string :: AllSpaces(cut) && s == TrimRight(s) + cut
  {
    if s != "" && IsSpace(s[|s| - 1]) {
      var init := s[..|s| - 1];
      TrimRightCuts(init);
      var cut: string :| AllSpaces(cut) && init == TrimRight(init) + cut;
      assert AllSpaces(cut + [s[|s| - 1]]) && s == TrimRight(s) + (cut + [s[|s| - 1]]);
    } else {
      assert AllSpaces("") && s == TrimRight(s) + "";
    }
  }

  /** Stripping cuts white space, and nothing else, off both ends until none is left there. */
  lemma StripMeans(s: string) returns (left: string, right: string)
    ensures AllSpaces(left) && AllSpaces(right) && s == left + Strip(s) + right
    ensures Strip(s) != "" ==> !IsSpace(Strip(s)[0]) && !IsSpace(Strip(s)[|Strip(s)| - 1])
  {
    TrimLeftCuts(s);
    TrimLeftStops(s);
    TrimRightCuts(TrimLeft(s));
    TrimRightStops(TrimLeft(s));
    left :| AllSpaces(left) && s == left + TrimLeft(s);
    right :| AllSpaces(right) && TrimLeft(s) == Strip(s) + right;
    if Strip(s) != "" { assert Strip(s)[0] == TrimLeft(s)[0]; }
  }

  /** A text is blank exactly when there is nothing but white space in it. */
  lemma BlankMeans(s: string)
    ensures Blank(s) <==> AllSpaces(s)
  {
    var left, right := StripMeans(s);
    if Blank(s) {
      forall c | c in s ensures IsSpace(c) { assert s == left + right; }
    } else {
      assert Strip(s)[0] == s[|left|] && s[|left|] in s;
    }
  }

  lemma StripIdempotent(s: string)
    ensures Strip(Strip(s)) == Strip(s)
  {
    TrimLeftStops(s);
    TrimRightStops(TrimLeft(s));
    if Strip(s) != "" { assert Strip(s)[0] == TrimLeft(s)[0]; }
  }
}
