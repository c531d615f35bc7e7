/** The condition for convergence is necessary: without it two orders of the same deliveries end in different tables. */
module ConvergenceExact {
  import opened Json
  import opened Telegram
  import opened Ingest
  import opened IngestRuns
  import opened Convergence

  // ---------------------------------------------------------------- versions delivered one by one

  /** A message of one part: a regular one, or an album of which one part is known. */
  function Alone(d: Delivery): Logical {
    var p := d.part;
    Logical(d.channel, d.group, p.id, [p.id], p.publishedAt, p.editedAt, p.text, [(p.id, p.metadata)], [p], p.media)
  }

  function Alones(ds: seq<Delivery>): (messages: seq<Logical>)
    ensures |messages| == |ds|
  {
    seq(|ds|, i requires 0 <= i < |ds| => Alone(ds[i]))
  }

  /** The row of a component after its versions have come one by one. */
  function RowAfter(ds: seq<Delivery>, c: Id, i: int): Option<Row> {
    if ds == [] then None
    else
      var before, d := RowAfter(ds[..|ds| - 1], c, i), ds[|ds| - 1];
      if d.channel == c && d.part.id == i then Some(Left(before, KeyOf(d), c, d.part)) else before
  }

  lemma {:induction false} AlonesDeliver(ds: seq<Delivery>)
    requires forall d | d in ds :: PartOk(d.part)
    ensures Delivers(Alones(ds), AsSet(ds))
  {
    forall m | m in Alones(ds) ensures LogicalOk(m) {
      var i :| 0 <= i < |ds| && m == Alone(ds[i]);
      assert ds[i] in ds;
    }
    if ds != [] {
      var n := |ds| - 1;
      AlonesDeliver(ds[..n]);
      assert Alones(ds)[..n] == Alones(ds[..n]);
      assert VersionsOf(Alone(ds[n])) == {ds[n]};
      assert AsSet(ds) == AsSet(ds[..n]) + {ds[n]};
    }
  }

  lemma {:induction false} SeenWereDelivered(messages: seq<Logical>)
    ensures Run(AsOps(messages)).seen <= Delivered(messages)
  {
    if messages != [] {
      SeenWereDelivered(messages[..|messages| - 1]);
      OneMoreOp(messages, |messages| - 1);
    }
  }

  /**
   * One more version: merged into the component's row, or refused
   * because the component is known under another owner.
   */
  lemma AloneMerges(s: State, d: Delivery, versions: set<Delivery>, c: Id, i: int)
    requires DbInv(s.db) && AllReflected(s) && s.seen + {d} <= versions && Sound(versions)
    ensures At(Apply(s, Deliver(Alone(d))).db.rows, c, i) ==
      if d.channel == c && d.part.id == i then Some(Left(At(s.db.rows, c, i), KeyOf(d), c, d.part))
        else At(s.db.rows, c, i)
  {
    var m, k := Alone(d), KeyOf(d);
    assert KeyOfLogical(m) == k && m.parts[..0] == [] && VersionsOf(m) == {d};
    assert PutAll(s.db.rows, k, m.channel, m.parts) == Put(s.db.rows, k, d.channel, d.part);
    PutAt(s.db.rows, k, d.channel, d.part, c, i);
    PutAt(s.db.rows, k, d.channel, d.part, d.channel, d.part.id);
    if Ours(s.db, m) { SoundDeliveryAccepted(s, m); }
  }

  lemma {:induction false} AlonesFold(ds: seq<Delivery>, versions: set<Delivery>, c: Id, i: int)
    requires Sound(versions) && AsSet(ds) <= versions
    ensures At(Run(AsOps(Alones(ds))).db.rows, c, i) == RowAfter(ds, c, i)
  {
    if ds != [] {
      var n := |ds| - 1;
      AlonesFold(ds[..n], versions, c, i);
      assert Alones(ds)[..n] == Alones(ds[..n]);
      OneMoreOp(Alones(ds), n);
      AlonesDeliver(ds[..n]);
      SeenWereDelivered(Alones(ds[..n]));
      AllOpsOk(Alones(ds[..n]));
      RowsReflect(AsOps(Alones(ds[..n])));
      ParentsAreMaterialized(AsOps(Alones(ds[..n])));
      AloneMerges(Run(AsOps(Alones(ds[..n]))), ds[n], versions, c, i);
    }
  }

  /** A sequence of all versions. */
  lemma {:induction false} Listing(versions: set<Delivery>) returns (ds: seq<Delivery>)
    ensures AsSet(ds) == versions
    decreases |versions|
  {
    if versions == {} {
      ds := [];
    } else {
      var d :| d in versions;
      var rest := Listing(versions - {d});
      ds := rest + [d];
      assert AsSet(ds) == AsSet(rest) + {d};
    }
  }

  /** Whoever comes first owns the component, and no version makes its publication time later. */
  lemma {:induction false} FirstStays(first: Delivery, rest: seq<Delivery>)
    ensures var row := RowAfter([first] + rest, first.channel, first.part.id);
      row.Some? && row.value.owner == KeyOf(first) && row.value.part.publishedAt <= first.part.publishedAt
  {
    var ds := [first] + rest;
    if rest == [] {
      assert ds[..0] == [] && ds[0] == first;
    } else {
      FirstStays(first, rest[..|rest| - 1]);
      assert ds[..|ds| - 1] == [first] + rest[..|rest| - 1];
    }
  }

  /** The row holds the content of version `d` of the component, under the owner of version `e`. */
  predicate HoldsVersion(ds: seq<Delivery>, c: Id, i: int, row: Row, d: Delivery, e: Delivery) {
    && d in ds && e in ds && d.channel == c == e.channel && d.part.id == i == e.part.id
    && Content(d.part) == Content(row.part) && row.owner == KeyOf(e)
  }

  lemma {:induction false} RowHoldsVersion(ds: seq<Delivery>, c: Id, i: int)
    ensures var row := RowAfter(ds, c, i);
      if row.None? then forall d | d in ds :: !(d.channel == c && d.part.id == i)
      else exists d, e :: HoldsVersion(ds, c, i, row.value, d, e)
  {
    if ds != [] {
      var init, last := ds[..|ds| - 1], ds[|ds| - 1];
      RowHoldsVersion(init, c, i);
      assert last in ds && forall d | d in ds :: d in init || d == last;
      var before, after := RowAfter(init, c, i), RowAfter(ds, c, i);
      if before.Some? {
        var d, e :| HoldsVersion(init, c, i, before.value, d, e);
        assert HoldsVersion(ds, c, i, after.value, if after == before then d else last, e);
      } else if after.Some? {
        assert HoldsVersion(ds, c, i, after.value, last, last);
      }
    }
  }

  /** A newest version that comes last leaves its content. */
  lemma NewestLast(versions: set<Delivery>, ds: seq<Delivery>, n: Delivery)
    requires Grouped(versions) && AsSet(ds) <= versions && Newest(versions, n)
    ensures var row := RowAfter(ds + [n], n.channel, n.part.id); row.Some? && Content(row.value.part) == Content(n.part)
  {
    assert (ds + [n])[..|ds|] == ds;
    RowHoldsVersion(ds, n.channel, n.part.id);
    var before := RowAfter(ds, n.channel, n.part.id);
    if before.Some? {
      var d, e :| HoldsVersion(ds, n.channel, n.part.id, before.value, d, e);
      assert d in AsSet(ds) && e in AsSet(ds) && SameComponent(d, n) && SameComponent(e, n);
      assert Content(d.part).editedAt == before.value.part.editedAt;
    }
  }

  /** When a newest version comes first, only newest versions get into the row. */
  lemma {:induction false} NewestFirst(versions: set<Delivery>, n: Delivery, rest: seq<Delivery>)
    requires Newest(versions, n) && AsSet(rest) <= versions
    ensures var row := RowAfter([n] + rest, n.channel, n.part.id);
      row.Some? && row.value.part.editedAt == n.part.editedAt
      && exists d :: Newest(versions, d) && SameComponent(d, n) && d.part.publishedAt == row.value.part.publishedAt
  {
    var ds := [n] + rest;
    if rest == [] {
      assert ds[..0] == [] && ds[0] == n && SameComponent(n, n);
    } else {
      var init, last := rest[..|rest| - 1], rest[|rest| - 1];
      assert last in AsSet(rest) && AsSet(init) <= AsSet(rest);
      NewestFirst(versions, n, init);
      assert ds[..|ds| - 1] == [n] + init;
      var before := RowAfter([n] + init, n.channel, n.part.id).value;
      var d :| Newest(versions, d) && SameComponent(d, n) && d.part.publishedAt == before.part.publishedAt;
      if SameComponent(last, n) && NotLater(before.part.editedAt, last.part.editedAt) {
        assert Newest(versions, last);
      }
    }
  }

  lemma {:induction false} NewestExists(versions: set<Delivery>, d: Delivery) returns (n: Delivery)
    requires d in versions
    ensures Newest(versions, n) && SameComponent(n, d)
    decreases |versions|
  {
    if later :| later in versions && SameComponent(later, d) && !NotLater(later.part.editedAt, d.part.editedAt) {
      n := NewestExists(versions - {d}, later);
      assert NotLater(d.part.editedAt, later.part.editedAt) && NotLater(later.part.editedAt, n.part.editedAt);
    } else {
      n := d;
    }
  }

  /** Two orders of the versions end with different rows. */
  ghost predicate OrdersDiffer(versions: set<Delivery>) {
    exists a, b :: Delivers(a, versions) && Delivers(b, versions) && !SameTables(a, b)
  }

  lemma DifferentRows(versions: set<Delivery>, a: seq<Delivery>, b: seq<Delivery>, c: Id, i: int)
    requires Sound(versions) && AsSet(a) == versions == AsSet(b) && RowAfter(a, c, i) != RowAfter(b, c, i)
    ensures OrdersDiffer(versions)
  {
    AlonesDeliver(a);
    AlonesDeliver(b);
    AlonesFold(a, versions, c, i);
    AlonesFold(b, versions, c, i);
    assert !SameTables(Alones(a), Alones(b));
  }

  /** A component that comes with two groups ends under whichever comes first. */
  lemma GroupsMustAgree(versions: set<Delivery>, a: Delivery, b: Delivery)
    requires Sound(versions) && a in versions && b in versions && SameComponent(a, b) && a.group != b.group
    ensures OrdersDiffer(versions)
  {
    var rest := Listing(versions);
    FirstStays(a, rest);
    FirstStays(b, rest);
    assert AsSet([a] + rest) == versions == AsSet([b] + rest);
    DifferentRows(versions, [a] + rest, [b] + rest, a.channel, a.part.id);
  }

  /** Of two newest versions with different contents, whichever comes last stays. */
  lemma NewestMustAgree(versions: set<Delivery>, a: Delivery, b: Delivery)
    requires Sound(versions) && Grouped(versions) && Newest(versions, a) && Newest(versions, b)
    requires SameComponent(a, b) && Content(a.part) != Content(b.part)
    ensures OrdersDiffer(versions)
  {
    var rest := Listing(versions);
    NewestLast(versions, rest, a);
    NewestLast(versions, rest, b);
    assert AsSet(rest + [a]) == versions == AsSet(rest + [b]);
    DifferentRows(versions, rest + [a], rest + [b], a.channel, a.part.id);
  }

  /** A publication time earlier than that of every newest version is kept or lost with the order. */
  lemma PublicationMustBeKept(versions: set<Delivery>, w: Delivery)
    requires Sound(versions) && w in versions && !PublicationKept(versions, w)
    ensures OrdersDiffer(versions)
  {
    var rest := Listing(versions);
    var n := NewestExists(versions, w);
    FirstStays(w, rest);
    NewestFirst(versions, n, rest);
    assert AsSet([w] + rest) == versions == AsSet([n] + rest);
    DifferentRows(versions, [w] + rest, [n] + rest, w.channel, w.part.id);
  }

  lemma OtherwiseOrdersDiffer(versions: set<Delivery>)
    requires Sound(versions) && !(Grouped(versions) && Settled(versions))
    ensures OrdersDiffer(versions)
  {
    if a, b :| a in versions && b in versions && SameComponent(a, b) && a.group != b.group {
      GroupsMustAgree(versions, a, b);
    } else if a, b :|
        && Newest(versions, a) && Newest(versions, b)
        && SameComponent(a, b) && Content(a.part) != Content(b.part) {
      NewestMustAgree(versions, a, b);
    } else {
      var w :| w in versions && !PublicationKept(versions, w);
      PublicationMustBeKept(versions, w);
    }
  }

  /**
   * Versions of components with separate assets end in the same tables in every order, grouping and repetition
   * exactly when no component changes its group, its newest versions have one content, and one of them was published
   * as early as any of its versions.
   */
  lemma ConvergesExactly(versions: set<Delivery>)
    requires Sound(versions)
    ensures (forall a, b | Delivers(a, versions) && Delivers(b, versions) :: SameTables(a, b)) <==>
      Grouped(versions) && Settled(versions)
  {
    if Grouped(versions) && Settled(versions) {
      forall a, b | Delivers(a, versions) && Delivers(b, versions) ensures SameTables(a, b) {
        IngestConverges(a, b, versions);
      }
    } else {
      OtherwiseOrdersDiffer(versions);
    }
  }

  // ---------------------------------------------------------------- two versions in two orders

  function RowOfTwo(a: Delivery, b: Delivery): Row { Merged(Row(a.channel, KeyOf(a), a.part), KeyOf(b), b.part) }

  /** The table holds this row and no other. */
  ghost predicate OnlyRow(rows: seq<Row>, row: Row) {
    forall c, i :: At(rows, c, i) == if c == row.channel && i == row.part.id then Some(row) else None
  }

  lemma TwoVersionsRow(a: Delivery, b: Delivery, c: Id, i: int)
    requires SameComponent(a, b)
    ensures RowAfter([a, b], c, i) == if c == a.channel && i == a.part.id then Some(RowOfTwo(a, b)) else None
  {
    assert [a, b][..1] == [a] && [a][..0] == [];
    assert RowAfter([a], c, i) == if c == a.channel && i == a.part.id then Some(Row(c, KeyOf(a), a.part)) else None;
  }

  lemma AlonesKeep(ds: seq<Delivery>)
    requires forall d | d in ds :: PartOk(d.part)
    ensures DbInv(Run(AsOps(Alones(ds))).db)
  {
    AlonesDeliver(ds);
    AllOpsOk(Alones(ds));
    ParentsAreMaterialized(AsOps(Alones(ds)));
  }

  lemma OnlyRowLeft(ds: seq<Delivery>, versions: set<Delivery>, row: Row)
    requires Sound(versions) && AsSet(ds) <= versions
    requires forall c, i :: RowAfter(ds, c, i) == if c == row.channel && i == row.part.id then Some(row) else None
    ensures OnlyRow(Run(AsOps(Alones(ds))).db.rows, row)
  {
    var rows := Run(AsOps(Alones(ds))).db.rows;
    forall c, i ensures At(rows, c, i) == if c == row.channel && i == row.part.id then Some(row) else None {
      AlonesFold(ds, versions, c, i);
    }
  }

  lemma PairIsSound(a: Delivery, b: Delivery, ds: seq<Delivery>)
    requires PartOk(a.part) && PartOk(b.part) && SameComponent(a, b) && ds == [a, b]
    ensures Sound({a, b}) && AsSet(ds) <= {a, b} && forall d | d in ds :: PartOk(d.part)
  {
  }

  lemma TwoVersionsTable(a: Delivery, b: Delivery, ds: seq<Delivery>)
    requires PartOk(a.part) && PartOk(b.part) && SameComponent(a, b) && ds == [a, b]
    ensures DbInv(Run(AsOps(Alones(ds))).db) && OnlyRow(Run(AsOps(Alones(ds))).db.rows, RowOfTwo(a, b))
  {
    PairIsSound(a, b, ds);
    AlonesKeep(ds);
    TwoVersionsRows(a, b, ds, RowOfTwo(a, b));
    OnlyRowLeft(ds, {a, b}, RowOfTwo(a, b));
  }

  lemma TwoVersionsRows(a: Delivery, b: Delivery, ds: seq<Delivery>, row: Row)
    requires SameComponent(a, b) && ds == [a, b] && row == RowOfTwo(a, b)
    ensures forall c, i :: RowAfter(ds, c, i) == if c == row.channel && i == row.part.id then Some(row) else None
  {
    forall c, i ensures RowAfter(ds, c, i) == if c == row.channel && i == row.part.id then Some(row) else None {
      TwoVersionsRow(a, b, c, i);
    }
  }

  lemma OnlyRowsAgree(s: Db, t: Db, a: Row, b: Row)
    requires DbInv(s) && DbInv(t) && OnlyRow(s.rows, a) && OnlyRow(t.rows, b) && a.channel == b.channel
    requires a.part.id == b.part.id
    ensures SameRows(s, t) && s.parents == t.parents <==> a == b
  {
    if a == b {
      assert SameRows(s, t);
      SameParents(s, t);
    } else {
      assert At(s.rows, a.channel, a.part.id) != At(t.rows, a.channel, a.part.id);
    }
  }

  /** The earlier publication is not lost: by an equal content, or because the later edit has it. */
  predicate PairAgrees(a: Delivery, b: Delivery) {
    && a.group == b.group
    && if a.part.editedAt == b.part.editedAt then Content(a.part) == Content(b.part)
       else if NotLater(a.part.editedAt, b.part.editedAt) then b.part.publishedAt <= a.part.publishedAt
       else a.part.publishedAt <= b.part.publishedAt
  }

  lemma TwoRowsAgree(a: Delivery, b: Delivery)
    requires SameComponent(a, b)
    ensures RowOfTwo(a, b) == RowOfTwo(b, a) <==> PairAgrees(a, b)
  {
    assert a.part == Content(a.part).(publishedAt := a.part.publishedAt);
    assert b.part == Content(b.part).(publishedAt := b.part.publishedAt);
  }

  /** Two versions of one component end alike in both orders exactly when they agree in this sense. */
  lemma TwoVersionsAgreeExactly(a: Delivery, b: Delivery)
    requires PartOk(a.part) && PartOk(b.part) && SameComponent(a, b)
    ensures SameTables(Alones([a, b]), Alones([b, a])) <==> PairAgrees(a, b)
  {
    TwoVersionsTable(a, b, [a, b]);
    TwoVersionsTable(b, a, [b, a]);
    TwoRowsAgree(a, b);
    OnlyRowsAgree(Run(AsOps(Alones([a, b]))).db, Run(AsOps(Alones([b, a]))).db, RowOfTwo(a, b), RowOfTwo(b, a));
  }
}
