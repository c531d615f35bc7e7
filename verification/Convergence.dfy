/**
 * When any order, batching and replay of the same deliveries ends in the
 * same tables: a sufficient and necessary condition.
 */
module Convergence {
  import opened Json
  import opened Ordering
  import opened Telegram
  import opened Ingest
  import opened IngestRuns

  // ---------------------------------------------------------------- sets of versions

  predicate AssetsApart(a: Part, b: Part) {
    forall i, j | 0 <= i < |a.media| && 0 <= j < |b.media| :: a.media[i].id != b.media[j].id
  }

  /** Versions as their constructors admit them; different components use different asset IDs. */
  ghost predicate Sound(versions: set<Delivery>) {
    && (forall d | d in versions :: PartOk(d.part))
    && (forall a, b | a in versions && b in versions && !SameComponent(a, b) :: AssetsApart(a.part, b.part))
  }

  /** No component changes its group. */
  ghost predicate Grouped(versions: set<Delivery>) {
    forall a, b | a in versions && b in versions && SameComponent(a, b) :: a.group == b.group
  }

  /** A version with the greatest edit time of its component. */
  ghost predicate Newest(versions: set<Delivery>, d: Delivery) {
    d in versions && forall e | e in versions && SameComponent(e, d) :: NotLater(e.part.editedAt, d.part.editedAt)
  }

  /** A version apart from the time it was published at. */
  function Content(p: Part): Part { p.(publishedAt := 0) }

  /** The newest versions of a component have one content, and one of them was published as early as any version. */
  ghost predicate Settled(versions: set<Delivery>) {
    && (forall a, b | Newest(versions, a) && Newest(versions, b) && SameComponent(a, b) ::
      Content(a.part) == Content(b.part))
    && (forall d | d in versions :: PublicationKept(versions, d))
  }

  ghost predicate PublicationKept(versions: set<Delivery>, d: Delivery) {
    exists n :: Newest(versions, n) && SameComponent(n, d) && n.part.publishedAt <= d.part.publishedAt
  }

  ghost predicate Consistent(versions: set<Delivery>) { Sound(versions) && Grouped(versions) && Settled(versions) }

  // ---------------------------------------------------------------- what every history makes of a component

  predicate VersionFor(row: Row, d: Delivery) { d.channel == row.channel && d.part.id == row.part.id }

  ghost predicate NewestFor(versions: set<Delivery>, row: Row, n: Delivery) {
    Newest(versions, n) && VersionFor(row, n)
  }

  /**
   * The row holds the content of a newest version, under the group of all versions; its publication time is that of
   * some version and no later than that of any newest one.
   */
  ghost predicate Reflects(versions: set<Delivery>, row: Row) {
    && (forall d | d in versions && VersionFor(row, d) ::
      d.group == row.owner.Group() && d.channel == row.owner.channel)
    && (exists n :: NewestFor(versions, row, n) && Content(n.part) == Content(row.part))
    && (exists d :: d in versions && VersionFor(row, d) && d.part.publishedAt == row.part.publishedAt)
    && (forall n | NewestFor(versions, row, n) :: row.part.publishedAt <= n.part.publishedAt)
  }

  ghost predicate ReflectedAt(s: State, channel: Id, id: int) {
    match At(s.db.rows, channel, id)
    case None => forall d | d in s.seen :: !(d.channel == channel && d.part.id == id)
    case Some(row) => Reflects(s.seen, row)
  }

  ghost predicate AllReflected(s: State) { forall c, i :: ReflectedAt(s, c, i) }

  /** `more` adds at most the version `d` of the row's component. */
  ghost predicate Adds(versions: set<Delivery>, more: set<Delivery>, row: Row, d: Delivery) {
    && versions <= more && d in more && VersionFor(row, d)
    && forall e | e in more && VersionFor(row, e) :: e in versions || e == d
  }

  /** A version that is not older takes the row over, with the earlier of the two publication times. */
  lemma TakenOver(versions: set<Delivery>, more: set<Delivery>, row: Row, d: Delivery)
    requires Reflects(versions, row) && Adds(versions, more, row, d)
    requires d.group == row.owner.Group() && NotLater(row.part.editedAt, d.part.editedAt)
    ensures Reflects(more, row.(part := d.part.(publishedAt := Earlier(row.part.publishedAt, d.part.publishedAt))))
  {
    var after := row.(part := d.part.(publishedAt := Earlier(row.part.publishedAt, d.part.publishedAt)));
    var n :| NewestFor(versions, row, n) && Content(n.part) == Content(row.part);
    assert n.part.editedAt == row.part.editedAt;
    assert NewestFor(more, after, d);
    assert Content(d.part) == Content(after.part);
    var first :| first in versions && VersionFor(row, first) && first.part.publishedAt == row.part.publishedAt;
    assert first in more && d in more;
    forall x | NewestFor(more, after, x) ensures after.part.publishedAt <= x.part.publishedAt {
      if x != d { assert NewestFor(versions, row, x); }
    }
  }

  /** A version that is not newer leaves the row alone, unless it ties and was published earlier. */
  lemma LeftAlone(versions: set<Delivery>, more: set<Delivery>, row: Row, d: Delivery)
    requires Reflects(versions, row) && Adds(versions, more, row, d)
    requires d.group == row.owner.Group() && NotLater(d.part.editedAt, row.part.editedAt)
    requires NotLater(row.part.editedAt, d.part.editedAt) ==> row.part.publishedAt <= d.part.publishedAt
    ensures Reflects(more, row)
  {
    var n :| NewestFor(versions, row, n) && Content(n.part) == Content(row.part);
    assert n.part.editedAt == row.part.editedAt;
    assert NewestFor(more, row, n);
    var first :| first in versions && VersionFor(row, first) && first.part.publishedAt == row.part.publishedAt;
    assert first in more;
    forall x | NewestFor(more, row, x) ensures row.part.publishedAt <= x.part.publishedAt {
      if x != d { assert NewestFor(versions, row, x); }
    }
  }

  lemma MergeReflects(versions: set<Delivery>, more: set<Delivery>, row: Row, k: Key, d: Delivery)
    requires Reflects(versions, row) && Adds(versions, more, row, d) && row.owner == k && d.group == k.Group()
    ensures Reflects(more, Merged(row, k, d.part))
  {
    if NotLater(row.part.editedAt, d.part.editedAt) {
      TakenOver(versions, more, row, d);
    } else {
      LeftAlone(versions, more, row, d);
    }
  }

  lemma FirstReflects(versions: set<Delivery>, row: Row, d: Delivery)
    requires d in versions && row.part == d.part && row.channel == d.channel && row.owner == KeyOf(d)
    requires forall e | e in versions && VersionFor(row, e) :: e == d
    ensures Reflects(versions, row)
  {
    assert NewestFor(versions, row, d);
  }

  /** Versions of other components do not matter. */
  lemma OthersReflected(versions: set<Delivery>, more: set<Delivery>, row: Row)
    requires Reflects(versions, row) && versions <= more && forall d | d in more && VersionFor(row, d) :: d in versions
    ensures Reflects(more, row)
  {
    forall n ensures NewestFor(versions, row, n) <==> NewestFor(more, row, n) {}
    var n :| NewestFor(versions, row, n) && Content(n.part) == Content(row.part);
    var first :| first in versions && VersionFor(row, first) && first.part.publishedAt == row.part.publishedAt;
    assert first in more;
  }

  /** A message that was upserted owned the rows of its components already. */
  lemma NotOwnedElsewhere(s: State, m: Logical, p: Part)
    requires LogicalOk(m) && Upsert(s.db, m).Ok? && p in m.parts && At(s.db.rows, m.channel, p.id).Some?
    ensures At(s.db.rows, m.channel, p.id).value.owner == KeyOfLogical(m)
  {
    PutAllAt(s.db.rows, KeyOfLogical(m), m.channel, m.parts, m.channel, p.id);
    var n :| 0 <= n < |m.parts| && m.parts[n] == p;
    var row := At(PutAll(s.db.rows, KeyOfLogical(m), m.channel, m.parts), m.channel, m.parts[n].id);
    assert row.Some? && row.value.owner == KeyOfLogical(m);
  }

  lemma OneVersionEach(m: Logical, p: Part)
    requires LogicalOk(m) && p in m.parts
    ensures forall d | d in VersionsOf(m) && d.part.id == p.id :: d.part == p
  {
  }

  /** The version a message brings is the one addition it makes for that component. */
  lemma MessageAdds(s: State, m: Logical, p: Part, row: Row)
    requires LogicalOk(m) && p in m.parts && Holds(row, m.channel, p.id)
    ensures Adds(s.seen, s.seen + VersionsOf(m), row, Delivery(m.channel, m.group, p))
  {
    OneVersionEach(m, p);
  }

  lemma KnownReflects(s: State, m: Logical, p: Part, row: Row)
    requires LogicalOk(m) && p in m.parts && Holds(row, m.channel, p.id) && row.owner == KeyOfLogical(m)
    requires Reflects(s.seen, row)
    ensures Reflects(s.seen + VersionsOf(m), Merged(row, KeyOfLogical(m), p))
  {
    MessageAdds(s, m, p, row);
    MergeReflects(s.seen, s.seen + VersionsOf(m), row, KeyOfLogical(m), Delivery(m.channel, m.group, p));
  }

  lemma UnknownReflects(s: State, m: Logical, p: Part)
    requires LogicalOk(m) && p in m.parts && forall d | d in s.seen :: !(d.channel == m.channel && d.part.id == p.id)
    ensures Reflects(s.seen + VersionsOf(m), Row(m.channel, KeyOfLogical(m), p))
  {
    var d := Delivery(m.channel, m.group, p);
    OneVersionEach(m, p);
    assert d in VersionsOf(m) && KeyOf(d) == KeyOfLogical(m);
    FirstReflects(s.seen + VersionsOf(m), Row(m.channel, KeyOfLogical(m), p), d);
  }

  lemma DeliveredReflects(s: State, m: Logical, p: Part)
    requires ReflectedAt(s, m.channel, p.id) && LogicalOk(m) && Upsert(s.db, m).Ok? && p in m.parts
    ensures ReflectedAt(Apply(s, Deliver(m)), m.channel, p.id)
  {
    var before := At(s.db.rows, m.channel, p.id);
    PutAllAt(s.db.rows, KeyOfLogical(m), m.channel, m.parts, m.channel, p.id);
    AtFinds(s.db.rows, m.channel, p.id);
    if before.Some? {
      NotOwnedElsewhere(s, m, p);
      KnownReflects(s, m, p, before.value);
    } else {
      UnknownReflects(s, m, p);
    }
  }

  lemma DeliverReflects(s: State, m: Logical, c: Id, i: int)
    requires DbInv(s.db) && ReflectedAt(s, c, i) && LogicalOk(m) && Upsert(s.db, m).Ok?
    ensures ReflectedAt(Apply(s, Deliver(m)), c, i)
  {
    if c == m.channel && exists p :: p in m.parts && p.id == i {
      var p :| p in m.parts && p.id == i;
      DeliveredReflects(s, m, p);
    } else {
      PutAllAt(s.db.rows, KeyOfLogical(m), m.channel, m.parts, c, i);
      AtFinds(s.db.rows, c, i);
      var row := At(s.db.rows, c, i);
      assert forall d | d in VersionsOf(m) :: !(d.channel == c && d.part.id == i);
      if row.Some? { OthersReflected(s.seen, Apply(s, Deliver(m)).seen, row.value); }
    }
  }

  /** A recorded edit takes the row over; a stale one leaves it. */
  lemma EditReflects(s: State, e: Edit)
    requires DbInv(s.db) && ReflectedAt(s, e.channel, e.id) && At(s.db.rows, e.channel, e.id).Some?
    requires RecordEdit(s.db, e).Ok?
    ensures ReflectedAt(Apply(s, Change(e)), e.channel, e.id)
  {
    var row, v := At(s.db.rows, e.channel, e.id).value, Apply(s, Change(e));
    AtFinds(s.db.rows, e.channel, e.id);
    var d := VersionOf(row, e);
    assert Adds(s.seen, v.seen, row, d);
    if RecordEdit(s.db, e).value.1 {
      ReplaceAt(s.db.rows, e.channel, e.id, Edited(row.part, e), e.channel, e.id);
      TakenOver(s.seen, v.seen, row, d);
    } else {
      LeftAlone(s.seen, v.seen, row, d);
    }
  }

  lemma ChangeReflects(s: State, e: Edit, c: Id, i: int)
    requires DbInv(s.db) && ReflectedAt(s, c, i) && ReflectedAt(s, e.channel, e.id)
    ensures ReflectedAt(Apply(s, Change(e)), c, i)
  {
    var edited := At(s.db.rows, e.channel, e.id);
    if edited.Some? && RecordEdit(s.db, e).Ok? {
      if c == e.channel && i == e.id { EditReflects(s, e); } else { OtherEditReflects(s, e, edited.value, c, i); }
    }
  }

  lemma OtherEditReflects(s: State, e: Edit, edited: Row, c: Id, i: int)
    requires At(s.db.rows, e.channel, e.id) == Some(edited) && RecordEdit(s.db, e).Ok?
    requires ReflectedAt(s, c, i) && !(c == e.channel && i == e.id)
    ensures ReflectedAt(Apply(s, Change(e)), c, i)
  {
    var row := At(s.db.rows, c, i);
    AtFinds(s.db.rows, e.channel, e.id);
    AtFinds(s.db.rows, c, i);
    if RecordEdit(s.db, e).value.1 { ReplaceAt(s.db.rows, e.channel, e.id, Edited(edited.part, e), c, i); }
    if row.Some? { OthersReflected(s.seen, s.seen + {VersionOf(edited, e)}, row.value); }
  }

  /**
   * After any history of deliveries and edits each row holds the content of its component's newest accepted version.
   */
  lemma {:induction false} RowsReflect(ops: seq<Op>)
    requires forall i | 0 <= i < |ops| :: OpOk(ops[i])
    ensures AllReflected(Run(ops))
  {
    if ops == [] {
      forall c, i ensures ReflectedAt(Empty(), c, i) {}
    } else {
      var init, op := ops[..|ops| - 1], ops[|ops| - 1];
      var s := Run(init);
      ParentsAreMaterialized(init);
      RowsReflect(init);
      forall c, i ensures ReflectedAt(Apply(s, op), c, i) {
        assert ReflectedAt(s, c, i);
        if op.Change? { assert ReflectedAt(s, op.edit.channel, op.edit.id); }
        if op.Deliver? {
          if Upsert(s.db, op.message).Ok? { DeliverReflects(s, op.message, c, i); }
        } else {
          ChangeReflects(s, op.edit, c, i);
        }
      }
    }
  }

  // ---------------------------------------------------------------- histories that agree

  /** Settled versions leave no choice for the row. */
  lemma SettledRow(versions: set<Delivery>, a: Row, b: Row)
    requires Settled(versions) && Reflects(versions, a) && Reflects(versions, b) && Fits(a) && Fits(b)
    requires a.channel == b.channel && a.part.id == b.part.id
    ensures a == b
  {
    SettledContent(versions, a, b);
    EarliestKept(versions, a, b);
    EarliestKept(versions, b, a);
    assert a.part == Content(a.part).(publishedAt := a.part.publishedAt);
    assert b.part == Content(b.part).(publishedAt := b.part.publishedAt);
  }

  lemma NewestShown(versions: set<Delivery>, row: Row) returns (n: Delivery)
    requires Reflects(versions, row)
    ensures NewestFor(versions, row, n) && Content(n.part) == Content(row.part)
    ensures n.group == row.owner.Group() && n.channel == row.owner.channel
  {
    n :| NewestFor(versions, row, n) && Content(n.part) == Content(row.part);
  }

  lemma SettledContent(versions: set<Delivery>, a: Row, b: Row)
    requires Settled(versions) && Reflects(versions, a) && Reflects(versions, b) && Fits(a) && Fits(b)
    requires a.channel == b.channel && a.part.id == b.part.id
    ensures a.owner == b.owner && Content(a.part) == Content(b.part)
  {
    var n := NewestShown(versions, a);
    var m := NewestShown(versions, b);
    assert VersionFor(b, n) && n.group == b.owner.Group();
    assert Content(n.part) == Content(m.part) by {
      assert Newest(versions, n) && Newest(versions, m) && SameComponent(n, m);
    }
    SameOwner(a, b);
  }

  lemma SameOwner(a: Row, b: Row)
    requires Fits(a) && Fits(b) && a.channel == b.channel && a.part.id == b.part.id
    requires a.owner.Group() == b.owner.Group()
    ensures a.owner == b.owner
  {
  }

  lemma EarliestKept(versions: set<Delivery>, a: Row, b: Row)
    requires Settled(versions) && Reflects(versions, a) && Reflects(versions, b)
    requires a.channel == b.channel && a.part.id == b.part.id
    ensures a.part.publishedAt <= b.part.publishedAt
  {
    var d :| d in versions && VersionFor(b, d) && d.part.publishedAt == b.part.publishedAt;
    assert PublicationKept(versions, d);
    var n :| Newest(versions, n) && SameComponent(n, d) && n.part.publishedAt <= d.part.publishedAt;
    assert NewestFor(versions, a, n);
  }

  ghost predicate SameRows(a: Db, b: Db) { forall c, i :: At(a.rows, c, i) == At(b.rows, c, i) }

  /** Tables with the same rows have the same parents. */
  lemma SameParents(a: Db, b: Db)
    requires DbInv(a) && DbInv(b) && SameRows(a, b)
    ensures a.parents == b.parents
  {
    ParentsCarryOver(a, b);
    ParentsCarryOver(b, a);
  }

  lemma ParentsCarryOver(a: Db, b: Db)
    requires DbInv(a) && DbInv(b) && SameRows(a, b)
    ensures forall k | k in a.parents :: k in b.parents && b.parents[k] == a.parents[k]
  {
    forall k | k in a.parents ensures k in b.parents && b.parents[k] == a.parents[k] { ParentCarriesOver(a, b, k); }
  }

  lemma ParentExists(a: Db, b: Db, k: Key)
    requires DbInv(a) && DbInv(b) && SameRows(a, b) && k in a.parents
    ensures k in b.parents
  {
    PartsAreOwned(a, k);
    var first := a.parents[k].parts[0];
    assert first in a.parents[k].parts;
    AtFinds(b.rows, k.channel, first.id);
  }

  lemma ParentCarriesOver(a: Db, b: Db, k: Key)
    requires DbInv(a) && DbInv(b) && SameRows(a, b) && k in a.parents
    ensures k in b.parents && b.parents[k] == a.parents[k]
  {
    ParentExists(a, b, k);
    var s, t := OwnedBy(a.rows, k), OwnedBy(b.rows, k);
    forall p ensures p in s <==> p in t {
      OwnedByIndex(a.rows, k, p);
      OwnedByIndex(b.rows, k, p);
    }
    OwnedDistinct(a.rows, k);
    OwnedDistinct(b.rows, k);
    NormalizeSame(k.channel, k.Group(), s, t);
    assert Materialized(a, k) && Materialized(b, k);
  }

  /** Two histories that accepted the same settled versions end with the same rows and the same parents. */
  lemma HistoriesConverge(a: seq<Op>, b: seq<Op>)
    requires (forall i | 0 <= i < |a| :: OpOk(a[i])) && (forall i | 0 <= i < |b| :: OpOk(b[i]))
    requires Run(a).seen == Run(b).seen && Settled(Run(a).seen)
    ensures SameRows(Run(a).db, Run(b).db)
    ensures Run(a).db.parents == Run(b).db.parents
  {
    RowsReflect(a);
    RowsReflect(b);
    ParentsAreMaterialized(a);
    ParentsAreMaterialized(b);
    forall c, i ensures At(Run(a).db.rows, c, i) == At(Run(b).db.rows, c, i) { SameReflection(Run(a), Run(b), c, i); }
    SameParents(Run(a).db, Run(b).db);
  }

  lemma SameReflection(s: State, t: State, c: Id, i: int)
    requires ReflectedAt(s, c, i) && ReflectedAt(t, c, i) && s.seen == t.seen && Settled(s.seen) && DbInv(s.db)
    requires DbInv(t.db)
    ensures At(s.db.rows, c, i) == At(t.db.rows, c, i)
  {
    AtFinds(s.db.rows, c, i);
    AtFinds(t.db.rows, c, i);
    var a, b := At(s.db.rows, c, i), At(t.db.rows, c, i);
    if a.Some? && b.Some? { SettledRow(s.seen, a.value, b.value); }
  }

  // -------------------------------------------------------- sound deliveries of known components are never refused

  lemma {:induction false} MediaApart(parts: seq<Part>)
    requires forall p | p in parts :: PartOk(p)
    requires forall i, j | 0 <= i < j < |parts| :: AssetsApart(parts[i], parts[j])
    ensures AssetsDistinct(MediaOf(parts))
    ensures forall x :: x in MediaOf(parts) <==> exists i :: 0 <= i < |parts| && x in parts[i].media
  {
    if parts != [] {
      var rest := parts[1..];
      forall i, j | 0 <= i < j < |rest| ensures AssetsApart(rest[i], rest[j]) {
        assert AssetsApart(parts[i + 1], parts[j + 1]);
      }
      MediaApart(rest);
      assert parts[0] in parts;
      forall x ensures x in MediaOf(parts) <==> exists i :: 0 <= i < |parts| && x in parts[i].media {
        if x in MediaOf(rest) {
          var i :| 0 <= i < |rest| && x in rest[i].media;
          assert x in parts[i + 1].media;
        }
        if i :| 0 <= i < |parts| && x in parts[i].media {
          if i > 0 { assert x in rest[i - 1].media; }
        }
      }
      forall x, y | x in parts[0].media && y in MediaOf(rest) ensures x.id != y.id {
        var j :| 0 <= j < |rest| && y in rest[j].media;
        assert AssetsApart(parts[0], parts[j + 1]);
      }
    }
  }

  /** The part shows the assets of one of the versions. */
  ghost predicate ShowsOne(versions: set<Delivery>, channel: Id, p: Part) {
    exists d :: d in versions && d.channel == channel && d.part.id == p.id && d.part.media == p.media
  }

  /** Rows that show versions of a sound set always assemble into a message. */
  lemma SoundRowsNormalize(rows: seq<Row>, k: Key, versions: set<Delivery>)
    requires RowsOk(rows) && OwnedBy(rows, k) != [] && Sound(versions)
    requires forall p | p in OwnedBy(rows, k) :: ShowsOne(versions, k.channel, p)
    ensures Normalize(k.channel, k.Group(), OwnedBy(rows, k)).Ok?
  {
    var owned := OwnedBy(rows, k);
    OwnedDistinct(rows, k);
    IdOrder();
    SortStrict(ById, owned);
    var ordered := Sort(ById, owned);
    forall i, j | 0 <= i < j < |ordered| ensures AssetsApart(ordered[i], ordered[j]) {
      assert ById(ordered[i], ordered[j]) && ordered[i] in owned && ordered[j] in owned;
      var d :| d in versions && d.channel == k.channel && d.part.id == ordered[i].id
        && d.part.media == ordered[i].media;
      var e :| e in versions && e.channel == k.channel && e.part.id == ordered[j].id
        && e.part.media == ordered[j].media;
      assert !SameComponent(d, e) && AssetsApart(d.part, e.part);
    }
    MediaApart(ordered);
    NormalizeSucceeds(k.channel, k.Group(), owned);
  }

  /** No component of the message is known under another owner. */
  ghost predicate Ours(db: Db, m: Logical) {
    forall p | p in m.parts && At(db.rows, m.channel, p.id).Some? ::
      At(db.rows, m.channel, p.id).value.owner == KeyOfLogical(m)
  }

  /** After the parts statement the components are the message's, so it owns something. */
  lemma DeliveredAreOwned(db: Db, m: Logical)
    requires DbInv(db) && LogicalOk(m) && Ours(db, m)
    ensures var rows := PutAll(db.rows, KeyOfLogical(m), m.channel, m.parts);
      RowsOk(rows) && !OwnedElsewhere(rows, m) && OwnedBy(rows, KeyOfLogical(m)) != []
  {
    var k := KeyOfLogical(m);
    var rows := PutAll(db.rows, k, m.channel, m.parts);
    PutAllFits(db.rows, k, m.channel, m.parts);
    forall i | 0 <= i < |m.parts|
      ensures At(rows, m.channel, m.parts[i].id).Some? && At(rows, m.channel, m.parts[i].id).value.owner == k
    {
      PutAllAt(db.rows, k, m.channel, m.parts, m.channel, m.parts[i].id);
      assert m.parts[i] in m.parts;
    }
    AtFinds(rows, m.channel, m.parts[0].id);
    OwnedByIndex(rows, k, At(rows, m.channel, m.parts[0].id).value.part);
  }

  lemma RowShowsOne(versions: set<Delivery>, row: Row)
    requires Reflects(versions, row)
    ensures ShowsOne(versions, row.channel, row.part)
  {
    var n :| NewestFor(versions, row, n) && Content(n.part) == Content(row.part);
    assert n.part.media == Content(n.part).media == row.part.media;
  }

  lemma OwnedShowsOne(s: State, m: Logical, p: Part)
    requires RowsOk(PutAll(s.db.rows, KeyOfLogical(m), m.channel, m.parts)) && ReflectedAt(s, m.channel, p.id)
    requires LogicalOk(m)
    requires p in OwnedBy(PutAll(s.db.rows, KeyOfLogical(m), m.channel, m.parts), KeyOfLogical(m))
    ensures ShowsOne(s.seen + VersionsOf(m), m.channel, p)
  {
    var k := KeyOfLogical(m);
    OwnedByIndex(PutAll(s.db.rows, k, m.channel, m.parts), k, p);
    PutAllAt(s.db.rows, k, m.channel, m.parts, m.channel, p.id);
    if q :| q in m.parts && q.id == p.id {
      MergedShowsOne(s, m, q);
    } else {
      AtFinds(s.db.rows, m.channel, p.id);
      RowShowsOne(s.seen, At(s.db.rows, m.channel, p.id).value);
    }
  }

  lemma MergedShowsOne(s: State, m: Logical, q: Part)
    requires ReflectedAt(s, m.channel, q.id) && q in m.parts
    ensures ShowsOne(s.seen + VersionsOf(m), m.channel,
      Left(At(s.db.rows, m.channel, q.id), KeyOfLogical(m), m.channel, q).part)
  {
    AtFinds(s.db.rows, m.channel, q.id);
    assert Delivery(m.channel, m.group, q) in VersionsOf(m);
    if At(s.db.rows, m.channel, q.id).Some? { RowShowsOne(s.seen, At(s.db.rows, m.channel, q.id).value); }
  }

  /** The parts statement passes the ownership check and leaves parts that show versions of a sound set. */
  ghost predicate LeavesSound(rows: seq<Row>, m: Logical, versions: set<Delivery>) {
    && RowsOk(rows) && !OwnedElsewhere(rows, m) && OwnedBy(rows, KeyOfLogical(m)) != [] && Sound(versions)
    && forall p | p in OwnedBy(rows, KeyOfLogical(m)) :: ShowsOne(versions, m.channel, p)
  }

  lemma UpsertSucceeds(db: Db, m: Logical, versions: set<Delivery>)
    requires LeavesSound(PutAll(db.rows, KeyOfLogical(m), m.channel, m.parts), m, versions)
    ensures Upsert(db, m).Ok?
  {
    SoundRowsNormalize(PutAll(db.rows, KeyOfLogical(m), m.channel, m.parts), KeyOfLogical(m), versions);
  }

  lemma AllShowOne(s: State, m: Logical)
    requires RowsOk(PutAll(s.db.rows, KeyOfLogical(m), m.channel, m.parts)) && AllReflected(s) && LogicalOk(m)
    ensures forall p | p in OwnedBy(PutAll(s.db.rows, KeyOfLogical(m), m.channel, m.parts), KeyOfLogical(m)) ::
      ShowsOne(s.seen + VersionsOf(m), m.channel, p)
  {
    var k := KeyOfLogical(m);
    forall p | p in OwnedBy(PutAll(s.db.rows, k, m.channel, m.parts), k)
      ensures ShowsOne(s.seen + VersionsOf(m), m.channel, p)
    {
      assert ReflectedAt(s, m.channel, p.id);
      OwnedShowsOne(s, m, p);
    }
  }

  /** A sound delivery whose components are not known under another owner is accepted. */
  lemma SoundDeliveryAccepted(s: State, m: Logical)
    requires DbInv(s.db) && AllReflected(s) && LogicalOk(m) && Sound(s.seen + VersionsOf(m)) && Ours(s.db, m)
    ensures Upsert(s.db, m).Ok?
  {
    var k := KeyOfLogical(m);
    DeliveredAreOwned(s.db, m);
    AllShowOne(s, m);
    assert LeavesSound(PutAll(s.db.rows, k, m.channel, m.parts), m, s.seen + VersionsOf(m));
    UpsertSucceeds(s.db, m, s.seen + VersionsOf(m));
  }

  /** Components that keep their group are known under their own owner. */
  lemma GroupedAreOurs(s: State, m: Logical)
    requires DbInv(s.db) && AllReflected(s) && LogicalOk(m) && Grouped(s.seen + VersionsOf(m))
    ensures Ours(s.db, m)
  {
    forall p | p in m.parts && At(s.db.rows, m.channel, p.id).Some?
      ensures At(s.db.rows, m.channel, p.id).value.owner == KeyOfLogical(m)
    {
      AtFinds(s.db.rows, m.channel, p.id);
      assert ReflectedAt(s, m.channel, p.id);
      GroupedIsOurs(s, m, p, At(s.db.rows, m.channel, p.id).value);
    }
  }

  lemma GroupedIsOurs(s: State, m: Logical, p: Part, row: Row)
    requires LogicalOk(m) && Grouped(s.seen + VersionsOf(m)) && p in m.parts
    requires Reflects(s.seen, row) && Fits(row) && Holds(row, m.channel, p.id)
    ensures row.owner == KeyOfLogical(m)
  {
    var d, n :| d == Delivery(m.channel, m.group, p) && NewestFor(s.seen, row, n)
      && Content(n.part) == Content(row.part);
    assert d in VersionsOf(m) && SameComponent(d, n) && n.group == row.owner.Group();
  }

  lemma ConsistentDeliveryAccepted(s: State, m: Logical, all: set<Delivery>)
    requires DbInv(s.db) && AllReflected(s) && LogicalOk(m) && s.seen + VersionsOf(m) <= all && Sound(all)
    requires Grouped(all)
    ensures Upsert(s.db, m).Ok?
  {
    GroupedAreOurs(s, m);
    SoundDeliveryAccepted(s, m);
  }

  function Delivered(messages: seq<Logical>): set<Delivery> {
    if messages == [] then {} else Delivered(messages[..|messages| - 1]) + VersionsOf(messages[|messages| - 1])
  }

  function AsOps(messages: seq<Logical>): (ops: seq<Op>)
    ensures |ops| == |messages|
  {
    seq(|messages|, i requires 0 <= i < |messages| => Deliver(messages[i]))
  }

  lemma OneMoreOp(messages: seq<Logical>, n: nat)
    requires n + 1 == |messages|
    ensures Run(AsOps(messages)) == Apply(Run(AsOps(messages[..n])), Deliver(messages[n]))
  {
    assert AsOps(messages)[..n] == AsOps(messages[..n]);
  }

  lemma DeliveredMore(messages: seq<Logical>, n: nat)
    requires n + 1 == |messages|
    ensures Delivered(messages) == Delivered(messages[..n]) + VersionsOf(messages[n])
  {
  }

  lemma AllOpsOk(messages: seq<Logical>)
    requires forall m | m in messages :: LogicalOk(m)
    ensures forall i | 0 <= i < |AsOps(messages)| :: OpOk(AsOps(messages)[i])
  {
  }

  lemma NextDeliveryIsSeen(ops: seq<Op>, m: Logical, all: set<Delivery>)
    requires (forall i | 0 <= i < |ops| :: OpOk(ops[i])) && LogicalOk(m)
    requires Run(ops).seen + VersionsOf(m) <= all && Sound(all) && Grouped(all)
    ensures Apply(Run(ops), Deliver(m)).seen == Run(ops).seen + VersionsOf(m)
  {
    RowsReflect(ops);
    ParentsAreMaterialized(ops);
    ConsistentDeliveryAccepted(Run(ops), m, all);
  }

  /** Deliveries of a sound set in which no component changes its group are all accepted. */
  lemma {:induction false} DeliveriesAreSeen(messages: seq<Logical>, all: set<Delivery>)
    requires (forall m | m in messages :: LogicalOk(m)) && Delivered(messages) <= all && Sound(all) && Grouped(all)
    ensures Run(AsOps(messages)).seen == Delivered(messages)
  {
    if messages != [] {
      var n := |messages| - 1;
      var init := messages[..n];
      DeliveredMore(messages, n);
      DeliveriesAreSeen(init, all);
      OneMoreOp(messages, n);
      AllOpsOk(init);
      NextDeliveryIsSeen(AsOps(init), messages[n], all);
    }
  }

  ghost predicate SameTables(a: seq<Logical>, b: seq<Logical>) {
    SameRows(Run(AsOps(a)).db, Run(AsOps(b)).db) && Run(AsOps(a)).db.parents == Run(AsOps(b)).db.parents
  }

  /** The messages deliver exactly these versions, in some order, grouping and repetition. */
  ghost predicate Delivers(messages: seq<Logical>, versions: set<Delivery>) {
    (forall m | m in messages :: LogicalOk(m)) && Delivered(messages) == versions
  }

  /** Any order, any batching, partial albums and replays: the same consistent versions end in the same tables. */
  lemma IngestConverges(a: seq<Logical>, b: seq<Logical>, versions: set<Delivery>)
    requires Delivers(a, versions) && Delivers(b, versions) && Consistent(versions)
    ensures SameTables(a, b)
  {
    DeliveriesAreSeen(a, versions);
    DeliveriesAreSeen(b, versions);
    AllOpsOk(a);
    AllOpsOk(b);
    HistoriesConverge(AsOps(a), AsOps(b));
  }

  // ---------------------------------------------------------------- from raw batches

  lemma MessageIsSound(batch: seq<Delivery>, r: seq<Logical>, m: Logical)
    requires !Refused(batch) && NormalForm(batch, r) && m in r && forall d | d in batch :: PartOk(d.part)
    ensures LogicalOk(m)
  {
    MessageIsOfItsKey(batch, r, m);
    var k := KeyOfLogical(m);
    PartsForElements(batch, k);
    PartsForDistinct(batch, k);
    IdOrder();
    SortStrict(ById, PartsFor(batch, k));
    forall p | p in m.parts ensures PartOk(p) { assert AsDelivery(k, p) in batch; }
    forall i, j | 0 <= i < j < |m.parts| ensures m.parts[i].id < m.parts[j].id { assert ById(m.parts[i], m.parts[j]); }
  }

  lemma {:induction false} DeliveredElements(messages: seq<Logical>)
    ensures forall d :: d in Delivered(messages) <==> exists m :: m in messages && d in VersionsOf(m)
  {
    if messages != [] { DeliveredElements(messages[..|messages| - 1]); }
  }

  lemma PartIsVersion(m: Logical, d: Delivery)
    requires KeyOfLogical(m) == KeyOf(d) && d.part in m.parts
    ensures d in VersionsOf(m)
  {
    assert d == Delivery(m.channel, m.group, d.part);
  }

  lemma VersionIsDelivered(batch: seq<Delivery>, r: seq<Logical>, d: Delivery)
    requires !Refused(batch) && NormalForm(batch, r) && d in batch
    ensures exists m :: m in r && d in VersionsOf(m)
  {
    DeliveryHasMessage(batch, r, d);
    var m :| m in r && KeyOfLogical(m) == KeyOf(d) && d.part in m.parts;
    PartIsVersion(m, d);
  }

  /** Normalizing a batch loses and invents no version. */
  lemma BatchIsDelivered(batch: seq<Delivery>, r: seq<Logical>)
    requires !Refused(batch) && NormalForm(batch, r)
    ensures Delivered(r) == AsSet(batch)
  {
    DeliveredElements(r);
    forall d | d in batch ensures d in Delivered(r) { VersionIsDelivered(batch, r, d); }
    forall d | d in Delivered(r) ensures d in batch {
      var m :| m in r && d in VersionsOf(m);
      MessageIsOfItsKey(batch, r, m);
    }
  }

  lemma {:induction false} DeliveredConcat(a: seq<Logical>, b: seq<Logical>)
    ensures Delivered(a + b) == Delivered(a) + Delivered(b)
  {
    if b == [] {
      assert a + b == a;
    } else {
      assert (a + b)[..|a + b| - 1] == a + b[..|b| - 1];
      DeliveredConcat(a, b[..|b| - 1]);
    }
  }

  function Flat(normal: seq<seq<Logical>>): seq<Logical> {
    if normal == [] then [] else Flat(normal[..|normal| - 1]) + normal[|normal| - 1]
  }

  function Offered(batches: seq<seq<Delivery>>): set<Delivery> {
    if batches == [] then {} else Offered(batches[..|batches| - 1]) + AsSet(batches[|batches| - 1])
  }

  function AsSet(batch: seq<Delivery>): set<Delivery> { set d | d in batch }

  /** The batches of one or many ingestion calls and what each was normalized to. */
  ghost predicate Normalized(batches: seq<seq<Delivery>>, normal: seq<seq<Logical>>) {
    |batches| == |normal| && forall i | 0 <= i < |batches| :: NormalizedOne(batches[i], normal[i])
  }

  ghost predicate NormalizedOne(batch: seq<Delivery>, r: seq<Logical>) {
    !Refused(batch) && NormalForm(batch, r) && forall d | d in batch :: PartOk(d.part)
  }

  lemma {:induction false} BatchesAreDelivered(batches: seq<seq<Delivery>>, normal: seq<seq<Logical>>)
    requires Normalized(batches, normal)
    ensures forall m | m in Flat(normal) :: LogicalOk(m)
    ensures Delivered(Flat(normal)) == Offered(batches)
  {
    if batches != [] {
      var n := |batches| - 1;
      BatchesAreDelivered(batches[..n], normal[..n]);
      assert NormalizedOne(batches[n], normal[n]);
      BatchIsDelivered(batches[n], normal[n]);
      forall m | m in normal[n] ensures LogicalOk(m) { MessageIsSound(batches[n], normal[n], m); }
      DeliveredConcat(Flat(normal[..n]), normal[n]);
    }
  }

  /** However the deliveries are ordered, batched, split and repeated, consistent ones end in the same tables. */
  lemma BatchesConverge(a: seq<seq<Delivery>>, na: seq<seq<Logical>>, b: seq<seq<Delivery>>, nb: seq<seq<Logical>>)
    requires Normalized(a, na) && Normalized(b, nb) && Offered(a) == Offered(b) && Consistent(Offered(a))
    ensures SameTables(Flat(na), Flat(nb))
    ensures Run(AsOps(Flat(na))).seen == Offered(a) && AllReflected(Run(AsOps(Flat(na))))
  {
    BatchesAreDelivered(a, na);
    BatchesAreDelivered(b, nb);
    DeliveriesAreSeen(Flat(na), Offered(a));
    IngestConverges(Flat(na), Flat(nb), Offered(a));
    AllOpsOk(Flat(na));
    RowsReflect(AsOps(Flat(na)));
  }
}
