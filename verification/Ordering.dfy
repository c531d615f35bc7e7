/** Python's orderings: strings by code point, and `sorted` as a stable insertion sort. */
module Ordering {

  predicate StringLess(a: string, b: string) {
    |b| > 0 && (|a| == 0 || a[0] < b[0] || (a[0] == b[0] && StringLess(a[1..], b[1..])))
  }

  /** `before` compares sort keys: a strict weak order, whose ties are equal keys. */
  ghost predicate KeyOrder<T(!new)>(before: (T, T) -> bool) {
    && (forall a :: !before(a, a))
    && (forall a, b, c :: before(a, b) && before(b, c) ==> before(a, c))
    && (forall a, b, c :: before(a, c) ==> before(a, b) || before(b, c))
  }

  ghost predicate TotalOrder<T(!new)>(before: (T, T) -> bool) {
    KeyOrder(before) && forall a, b :: a == b || before(a, b) || before(b, a)
  }

  lemma {:induction false} StringLessTransitive(a: string, b: string, c: string)
    requires StringLess(a, b) && StringLess(b, c)
    ensures StringLess(a, c)
  {
    if |a| > 0 && a[0] == b[0] == c[0] {
      StringLessTransitive(a[1..], b[1..], c[1..]);
    }
  }

  lemma {:induction false} StringLessTotal(a: string, b: string)
    ensures !(StringLess(a, b) && StringLess(b, a))
    ensures a == b || StringLess(a, b) || StringLess(b, a)
  {
    if |a| > 0 && |b| > 0 && a[0] == b[0] {
      StringLessTotal(a[1..], b[1..]);
      assert a == [a[0]] + a[1..] && b == [b[0]] + b[1..];
    }
  }

  /** They agree up to `n`, where `a` ends first or has the smaller character. */
  ghost predicate SmallerAt<T>(less: (T, T) -> bool, a: seq<T>, b: seq<T>, n: nat) {
    n <= |a| && n < |b| && a[..n] == b[..n] && (n == |a| || less(a[n], b[n]))
  }

  predicate CharLess(a: char, b: char) { a < b }

  lemma SharedStart<T>(less: (T, T) -> bool, a: seq<T>, b: seq<T>, n: nat)
    requires SmallerAt(less, a, b, n)
    ensures n == 0 || (|a| > 0 && a[0] == b[0])
  {
    if n > 0 { assert a[..n][0] == b[..n][0]; }
  }

  lemma SmallerLater<T>(less: (T, T) -> bool, a: seq<T>, b: seq<T>, n: nat)
    requires |a| > 0 && |b| > 0 && a[0] == b[0]
    ensures SmallerAt(less, a, b, n + 1) <==> SmallerAt(less, a[1..], b[1..], n)
  {
    if n < |a| && n < |b| {
      assert a[..n + 1] == [a[0]] + a[1..][..n] && b[..n + 1] == [b[0]] + b[1..][..n];
      assert a[1..][..n] == a[..n + 1][1..] && b[1..][..n] == b[..n + 1][1..];
    }
  }

  /** The first place where two strings differ decides, and a string comes before what extends it. */
  lemma {:induction false} StringLessMeans(a: string, b: string)
    ensures StringLess(a, b) <==> exists n: nat :: SmallerAt(CharLess, a, b, n)
  {
    if |a| > 0 && |b| > 0 && a[0] == b[0] {
      StringLessMeans(a[1..], b[1..]);
      if n: nat :| SmallerAt(CharLess, a, b, n) { SmallerLater(CharLess, a, b, n - 1); }
      if n: nat :| SmallerAt(CharLess, a[1..], b[1..], n) { SmallerLater(CharLess, a, b, n); }
    } else {
      assert StringLess(a, b) <==> SmallerAt(CharLess, a, b, 0);
      if n: nat :| SmallerAt(CharLess, a, b, n) { SharedStart(CharLess, a, b, n); }
    }
  }

  lemma StringOrder()
    ensures TotalOrder(StringLess)
  {
    forall a, b ensures !StringLess(a, a) && (a == b || StringLess(a, b) || StringLess(b, a)) {
      StringLessTotal(a, b);
      StringLessTotal(a, a);
    }
    forall a, b, c | StringLess(a, b) && StringLess(b, c) ensures StringLess(a, c) {
      StringLessTransitive(a, b, c);
    }
  }

  /** Tuples of strings compare component by component. */
  predicate TupleLess(a: seq<string>, b: seq<string>) {
    |b| > 0 && (|a| == 0 || StringLess(a[0], b[0]) || (a[0] == b[0] && TupleLess(a[1..], b[1..])))
  }

  lemma {:induction false} TupleLessTransitive(a: seq<string>, b: seq<string>, c: seq<string>)
    requires TupleLess(a, b) && TupleLess(b, c)
    ensures TupleLess(a, c)
  {
    StringOrder();
    if |a| > 0 && a[0] == b[0] == c[0] {
      TupleLessTransitive(a[1..], b[1..], c[1..]);
    }
  }

  lemma {:induction false} TupleLessTotal(a: seq<string>, b: seq<string>)
    ensures !(TupleLess(a, b) && TupleLess(b, a))
    ensures a == b || TupleLess(a, b) || TupleLess(b, a)
  {
    StringOrder();
    if |a| > 0 && |b| > 0 && a[0] == b[0] {
      TupleLessTotal(a[1..], b[1..]);
      assert a == [a[0]] + a[1..] && b == [b[0]] + b[1..];
    }
  }

  lemma {:induction false} TupleLessMeans(a: seq<string>, b: seq<string>)
    ensures TupleLess(a, b) <==> exists n: nat :: SmallerAt(StringLess, a, b, n)
  {
    StringOrder();
    if |a| > 0 && |b| > 0 && a[0] == b[0] {
      TupleLessMeans(a[1..], b[1..]);
      if n: nat :| SmallerAt(StringLess, a, b, n) { SmallerLater(StringLess, a, b, n - 1); }
      if n: nat :| SmallerAt(StringLess, a[1..], b[1..], n) { SmallerLater(StringLess, a, b, n); }
    } else {
      assert TupleLess(a, b) <==> SmallerAt(StringLess, a, b, 0);
      if n: nat :| SmallerAt(StringLess, a, b, n) { SharedStart(StringLess, a, b, n); }
    }
  }

  lemma TupleOrder()
    ensures TotalOrder(TupleLess)
  {
    forall a, b ensures !TupleLess(a, a) && (a == b || TupleLess(a, b) || TupleLess(b, a)) {
      TupleLessTotal(a, b);
      TupleLessTotal(a, a);
    }
    forall a, b, c | TupleLess(a, b) && TupleLess(b, c) ensures TupleLess(a, c) {
      TupleLessTransitive(a, b, c);
    }
  }

  // ---------------------------------------------------------------- sorting

  function Insert<T>(before: (T, T) -> bool, x: T, s: seq<T>): (r: seq<T>)
    ensures |r| == |s| + 1
  {
    if s != [] && before(s[0], x) then [s[0]] + Insert(before, x, s[1..]) else [x] + s
  }

  /** `sorted(s, key=...)`: stable, because an element goes in front of its equals to the right. */
  function Sort<T>(before: (T, T) -> bool, s: seq<T>): (r: seq<T>)
    ensures |r| == |s|
  {
    if s == [] then [] else Insert(before, s[0], Sort(before, s[1..]))
  }

  ghost predicate Ascending<T>(before: (T, T) -> bool, s: seq<T>) {
    forall i, j :: 0 <= i < j < |s| ==> !before(s[j], s[i])
  }

  ghost predicate StrictlyAscending<T>(before: (T, T) -> bool, s: seq<T>) {
    forall i, j :: 0 <= i < j < |s| ==> before(s[i], s[j])
  }

  ghost predicate DistinctKeys<T>(before: (T, T) -> bool, s: seq<T>) {
    forall i, j :: 0 <= i < j < |s| ==> before(s[i], s[j]) || before(s[j], s[i])
  }

  lemma {:induction false} InsertElements<T(!new)>(before: (T, T) -> bool, x: T, s: seq<T>)
    ensures multiset(Insert(before, x, s)) == multiset([x] + s)
    ensures forall y :: y in Insert(before, x, s) <==> y == x || y in s
  {
    if s != [] && before(s[0], x) {
      InsertElements(before, x, s[1..]);
      assert s == [s[0]] + s[1..];
    }
  }

  lemma {:induction false} InsertSorts<T(!new)>(before: (T, T) -> bool, x: T, s: seq<T>)
    requires KeyOrder(before) && Ascending(before, s)
    ensures Ascending(before, Insert(before, x, s))
    ensures multiset(Insert(before, x, s)) == multiset([x] + s)
  {
    InsertElements(before, x, s);
    if s != [] && before(s[0], x) {
      var rest := Insert(before, x, s[1..]);
      InsertSorts(before, x, s[1..]);
      InsertElements(before, x, s[1..]);
      forall y | y in rest ensures !before(y, s[0]) {
        if y != x { var k :| 0 <= k < |s[1..]| && s[1..][k] == y; assert s[k + 1] == y; }
      }
    }
  }

  lemma {:induction false} SortSorts<T(!new)>(before: (T, T) -> bool, s: seq<T>)
    requires KeyOrder(before)
    ensures Ascending(before, Sort(before, s))
    ensures multiset(Sort(before, s)) == multiset(s)
  {
    if s != [] {
      SortSorts(before, s[1..]);
      InsertSorts(before, s[0], Sort(before, s[1..]));
      assert s == [s[0]] + s[1..];
    }
  }

  lemma SameElements<T>(s: seq<T>, t: seq<T>)
    requires multiset(s) == multiset(t)
    ensures |s| == |t|
    ensures forall x :: x in s <==> x in t
  {
    assert |multiset(s)| == |s| && |multiset(t)| == |t|;
    forall x ensures x in s <==> x in t {
      assert x in multiset(s) <==> x in multiset(t);
    }
  }

  /** Two strictly ascending arrangements of the same elements are the same list. */
  lemma {:induction false} StrictArrangementUnique<T(!new)>(before: (T, T) -> bool, s: seq<T>, t: seq<T>)
    requires KeyOrder(before)
    requires StrictlyAscending(before, s) && StrictlyAscending(before, t)
    requires |s| == |t|
    requires forall x :: x in s <==> x in t
    ensures s == t
  {
    if s != [] {
      assert s[0] in t && t[0] in s;
      assert s[0] == t[0] by {
        var i :| 0 <= i < |t| && t[i] == s[0];
        var j :| 0 <= j < |s| && s[j] == t[0];
      }
      forall x ensures x in s[1..] <==> x in t[1..] {
        if x in s[1..] {
          var i :| 0 <= i < |s[1..]| && s[1..][i] == x;
          assert x == s[i + 1] && x != s[0] && x in t;
        }
        if x in t[1..] {
          var i :| 0 <= i < |t[1..]| && t[1..][i] == x;
          assert x == t[i + 1] && x != t[0] && x in s;
        }
      }
      StrictArrangementUnique(before, s[1..], t[1..]);
      assert s == [s[0]] + s[1..] && t == [t[0]] + t[1..];
    }
  }

  lemma StrictSameLength<T(!new)>(before: (T, T) -> bool, s: seq<T>, t: seq<T>)
    requires KeyOrder(before)
    requires StrictlyAscending(before, s) && StrictlyAscending(before, t)
    requires forall x :: x in s <==> x in t
    ensures |s| == |t|
  {
    var elements := set x | x in s;
    assert elements == set x | x in t;
    DistinctCount(s);
    DistinctCount(t);
  }

  lemma {:induction false} DistinctCount<T>(s: seq<T>)
    requires forall i, j | 0 <= i < j < |s| :: s[i] != s[j]
    ensures |set x | x in s| == |s|
  {
    if s != [] {
      var init, last := s[..|s| - 1], s[|s| - 1];
      DistinctCount(init);
      assert (set x | x in s) == (set x | x in init) + {last};
      assert last !in init;
    }
  }

  /** With distinct keys the sorted list is strictly ascending ... */
  lemma SortStrict<T(!new)>(before: (T, T) -> bool, s: seq<T>)
    requires KeyOrder(before) && DistinctKeys(before, s)
    ensures StrictlyAscending(before, Sort(before, s))
    ensures forall x :: x in Sort(before, s) <==> x in s
  {
    SortSorts(before, s);
    var t := Sort(before, s);
    SameElements(t, s);
    forall i, j | 0 <= i < j < |t| ensures before(t[i], t[j]) {
      DistinctElements(before, s);
      assert t[i] != t[j] by { NoRepeats(s, t); }
      assert t[i] in s && t[j] in s;
    }
  }

  /** ... so it does not depend on the order of the input. */
  lemma SortOrderIrrelevant<T(!new)>(before: (T, T) -> bool, s: seq<T>, t: seq<T>)
    requires KeyOrder(before) && DistinctKeys(before, s) && multiset(s) == multiset(t)
    ensures Sort(before, s) == Sort(before, t)
  {
    SameElements(s, t);
    DistinctElements(before, s);
    forall i, j | 0 <= i < j < |t| ensures before(t[i], t[j]) || before(t[j], t[i]) {
      NoRepeats(s, t);
      assert t[i] in s && t[j] in s && t[i] != t[j];
    }
    SortStrict(before, s);
    SortStrict(before, t);
    StrictArrangementUnique(before, Sort(before, s), Sort(before, t));
  }

  lemma DistinctElements<T(!new)>(before: (T, T) -> bool, s: seq<T>)
    requires KeyOrder(before) && DistinctKeys(before, s)
    ensures forall i, j :: 0 <= i < j < |s| ==> s[i] != s[j]
  {}

  lemma SubsetCount<T>(part: set<T>, whole: set<T>)
    requires part <= whole
    ensures |part| <= |whole| && (|part| == |whole| ==> part == whole)
  {
    assert whole == part + (whole - part);
  }

  /** A rearrangement of a list without repeats has no repeats. */
  lemma NoRepeats<T>(s: seq<T>, t: seq<T>)
    requires multiset(s) == multiset(t)
    requires forall i, j :: 0 <= i < j < |s| ==> s[i] != s[j]
    ensures forall i, j :: 0 <= i < j < |t| ==> t[i] != t[j]
  {
    forall i, j | 0 <= i < j < |t| ensures t[i] != t[j] {
      assert t == t[..i] + [t[i]] + t[i + 1..j] + [t[j]] + t[j + 1..];
      if t[i] == t[j] {
        assert multiset(t)[t[i]] >= 2;
        MultiplicityAtMostOne(s, t[i]);
      }
    }
  }

  lemma {:induction false} MultiplicityAtMostOne<T>(s: seq<T>, x: T)
    requires forall i, j :: 0 <= i < j < |s| ==> s[i] != s[j]
    ensures multiset(s)[x] <= 1
  {
    if s != [] {
      MultiplicityAtMostOne(s[1..], x);
      assert s == [s[0]] + s[1..];
      if s[0] == x {
        forall i | 0 <= i < |s[1..]| ensures s[1..][i] != x { assert s[1..][i] == s[i + 1]; }
        assert x !in multiset(s[1..]);
      }
    }
  }

  // ---------------------------------------------------------------- one after the other

  /** The pieces one after the other, nothing between them and nothing left over; piece `i` begins at `starts[i]`. */
  ghost predicate Concatenates<T>(pieces: seq<seq<T>>, starts: seq<nat>, whole: seq<T>) {
    && |starts| == |pieces| + 1 && starts[0] == 0 && starts[|pieces|] == |whole|
    && forall i | 0 <= i < |pieces| ::
         starts[i + 1] == starts[i] + |pieces[i]| <= |whole| && whole[starts[i]..starts[i + 1]] == pieces[i]
  }

  lemma ConcatenatesMore<T>(pieces: seq<seq<T>>, starts: seq<nat>, whole: seq<T>, piece: seq<T>)
    requires Concatenates(pieces, starts, whole)
    ensures Concatenates(pieces + [piece], starts + [|whole| + |piece|], whole + piece)
  {
    var more, after := starts + [|whole| + |piece|], whole + piece;
    forall i | 0 <= i < |pieces| + 1
      ensures more[i + 1] == more[i] + |(pieces + [piece])[i]| <= |after|
      ensures after[more[i]..more[i + 1]] == (pieces + [piece])[i]
    {
      if i < |pieces| { assert after[starts[i]..starts[i + 1]] == whole[starts[i]..starts[i + 1]]; }
    }
  }

  // ---------------------------------------------------------------- sets in order

  /** The elements of a set in ascending order. */
  ghost function Arrangement<T(!new)>(before: (T, T) -> bool, s: set<T>): (r: seq<T>)
    requires TotalOrder(before)
    ensures StrictlyAscending(before, r) && |r| == |s|
    ensures forall x :: x in r <==> x in s
  {
    if s == {} then []
    else
      var x :| x in s;
      var rest := Arrangement(before, s - {x});
      InsertStrict(before, x, rest);
      Insert(before, x, rest)
  }

  lemma InsertStrict<T(!new)>(before: (T, T) -> bool, x: T, s: seq<T>)
    requires TotalOrder(before) && StrictlyAscending(before, s) && x !in s
    ensures StrictlyAscending(before, Insert(before, x, s))
    ensures forall y :: y in Insert(before, x, s) <==> y == x || y in s
  {
    var r := Insert(before, x, s);
    assert Ascending(before, s);
    InsertSorts(before, x, s);
    SameElements(r, [x] + s);
    forall i, j | 0 <= i < j < |s| ensures s[i] != s[j] { assert before(s[i], s[j]); }
    NoRepeats([x] + s, r);
  }

  /** The one ascending sequence of a set's elements. */
  lemma ArrangementIs<T(!new)>(before: (T, T) -> bool, s: set<T>, r: seq<T>)
    requires TotalOrder(before) && StrictlyAscending(before, r) && forall x :: x in r <==> x in s
    ensures r == Arrangement(before, s)
  {
    StrictSameLength(before, r, Arrangement(before, s));
    StrictArrangementUnique(before, r, Arrangement(before, s));
  }

  /** The elements of a set, sorted. */
  method InOrder<T(==, !new)>(before: (T, T) -> bool, s: set<T>) returns (r: seq<T>)
    requires TotalOrder(before)
    ensures r == Arrangement(before, s)
  {
    var left, listed := s, [];
    while left != {}
      invariant left <= s && (forall x :: x in listed <==> x in s && x !in left)
      invariant forall i, j | 0 <= i < j < |listed| :: listed[i] != listed[j]
      decreases |left|
    {
      var x :| x in left;
      left, listed := left - {x}, listed + [x];
    }
    SortStrict(before, listed);
    r := Sort(before, listed);
    ArrangementIs(before, s, r);
  }
}
