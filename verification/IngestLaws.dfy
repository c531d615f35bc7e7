/** What one delivery and one edit do to the component rows, told row by row. */
module IngestLaws {
  import opened Json
  import opened Ordering
  import opened Telegram
  import opened Ingest

  /** The row was edited later than the delivered version. */
  predicate Newer(r: Row, p: Part) {
    r.part.editedAt.Some? && (p.editedAt.None? || p.editedAt.value < r.part.editedAt.value)
  }

  /** The delivered version in place of the old one, with the earlier of the two publication times. */
  predicate Replaces(r: Row, p: Part, after: Row) {
    && after == Row(r.channel, r.owner, p.(publishedAt := after.part.publishedAt))
    && after.part.publishedAt <= r.part.publishedAt && after.part.publishedAt <= p.publishedAt
    && (after.part.publishedAt == r.part.publishedAt || after.part.publishedAt == p.publishedAt)
  }

  /** The row of a delivered component: inserted, replaced, or left because it is newer. */
  predicate Merges(m: Logical, p: Part, before: Option<Row>, after: Option<Row>) {
    match before
    case None => after == Some(Row(m.channel, KeyOfLogical(m), p))
    case Some(r) =>
      r.owner == KeyOfLogical(m) && after.Some? && if Newer(r, p) then after == before else Replaces(r, p, after.value)
  }

  /**
   * An accepted message inserts the components nobody has seen, replaces those it has no older version of, and leaves
   * newer versions and all other components as they were.
   */
  lemma DeliveredExactly(db: Db, m: Logical, c: Id, id: int)
    requires LogicalOk(m) && Upsert(db, m).Ok?
    ensures var before, after := At(db.rows, c, id), At(Upsert(db, m).value.rows, c, id);
      && ((c != m.channel || forall p | p in m.parts :: p.id != id) ==> after == before)
      && forall p | p in m.parts && c == m.channel && p.id == id :: Merges(m, p, before, after)
  {
    PutAllAt(db.rows, KeyOfLogical(m), m.channel, m.parts, c, id);
    forall p | p in m.parts && c == m.channel && p.id == id
      ensures At(db.rows, c, id).Some? ==> At(db.rows, c, id).value.owner == KeyOfLogical(m)
    {
      DeliveredToOwner(db, m, p);
    }
  }

  lemma DeliveredToOwner(db: Db, m: Logical, p: Part)
    requires LogicalOk(m) && p in m.parts && Upsert(db, m).Ok?
    ensures At(db.rows, m.channel, p.id).Some? ==> At(db.rows, m.channel, p.id).value.owner == KeyOfLogical(m)
  {
    var i :| 0 <= i < |m.parts| && m.parts[i] == p;
    var rows := PutAll(db.rows, KeyOfLogical(m), m.channel, m.parts);
    PutAllAt(db.rows, KeyOfLogical(m), m.channel, m.parts, m.channel, p.id);
    assert At(rows, m.channel, m.parts[i].id).value.owner == KeyOfLogical(m);
  }

  /** A component of the message belongs to another one. */
  ghost predicate Foreign(db: Db, m: Logical) {
    exists p :: p in m.parts && At(db.rows, m.channel, p.id).Some?
      && At(db.rows, m.channel, p.id).value.owner != KeyOfLogical(m)
  }

  /** Two assets of the message's retained parts share an ID once the delivery is merged. */
  predicate AssetsClash(db: Db, m: Logical) {
    var rows := PutAll(db.rows, KeyOfLogical(m), m.channel, m.parts);
    !AssetsDistinct(MediaOf(Sort(ById, OwnedBy(rows, KeyOfLogical(m)))))
  }

  /** A message is refused exactly when a component belongs to another one or its assets clash. */
  lemma RefusedExactly(db: Db, m: Logical)
    requires DbInv(db) && LogicalOk(m)
    ensures Upsert(db, m).Err? <==> Foreign(db, m) || AssetsClash(db, m)
  {
    var k := KeyOfLogical(m);
    var rows := PutAll(db.rows, k, m.channel, m.parts);
    OwnedElsewhereMeansForeign(db, m);
    PutAllFits(db.rows, k, m.channel, m.parts);
    OwnedDistinct(rows, k);
    if !Foreign(db, m) {
      OwnsFirst(db, m);
      NormalizeSucceeds(m.channel, m.group, OwnedBy(rows, k));
    }
  }

  lemma FirstIsOwned(db: Db, m: Logical)
    requires LogicalOk(m) && !Foreign(db, m)
    ensures var row := At(PutAll(db.rows, KeyOfLogical(m), m.channel, m.parts), m.channel, m.parts[0].id);
      row.Some? && row.value.owner == KeyOfLogical(m)
  {
    assert m.parts[0] in m.parts;
    PutAllAt(db.rows, KeyOfLogical(m), m.channel, m.parts, m.channel, m.parts[0].id);
  }

  lemma OwnsFirst(db: Db, m: Logical)
    requires DbInv(db) && LogicalOk(m) && !Foreign(db, m)
    ensures OwnedBy(PutAll(db.rows, KeyOfLogical(m), m.channel, m.parts), KeyOfLogical(m)) != []
  {
    var k := KeyOfLogical(m);
    var rows := PutAll(db.rows, k, m.channel, m.parts);
    PutAllFits(db.rows, k, m.channel, m.parts);
    FirstIsOwned(db, m);
    AtFinds(rows, m.channel, m.parts[0].id);
    OwnedByIndex(rows, k, At(rows, m.channel, m.parts[0].id).value.part);
  }

  lemma OwnedElsewhereMeansForeign(db: Db, m: Logical)
    requires LogicalOk(m)
    ensures OwnedElsewhere(PutAll(db.rows, KeyOfLogical(m), m.channel, m.parts), m) <==> Foreign(db, m)
  {
    var k := KeyOfLogical(m);
    var rows := PutAll(db.rows, k, m.channel, m.parts);
    forall i | 0 <= i < |m.parts|
      ensures At(rows, m.channel, m.parts[i].id).Some?
      ensures At(rows, m.channel, m.parts[i].id).value.owner != k <==>
        At(db.rows, m.channel, m.parts[i].id).Some? && At(db.rows, m.channel, m.parts[i].id).value.owner != k
    {
      assert m.parts[i] in m.parts;
      PutAllAt(db.rows, k, m.channel, m.parts, m.channel, m.parts[i].id);
    }
    if Foreign(db, m) {
      var p :| p in m.parts && At(db.rows, m.channel, p.id).Some? && At(db.rows, m.channel, p.id).value.owner != k;
      var i :| 0 <= i < |m.parts| && m.parts[i] == p;
      assert At(rows, m.channel, m.parts[i].id).value.owner != k;
    }
  }

  /** The edited component: new text, metadata, media and edit time, everything else its own. */
  predicate TakesEdit(p: Part, e: Edit, after: Part) {
    && after.text == e.text && after.metadata == e.metadata && after.media == e.media
    && after.editedAt == Some(e.editedAt) && after.id == p.id && after.publishedAt == p.publishedAt
  }

  /** An edit is recorded exactly when it is newer than what is known of its component, and changes that row only. */
  lemma EditedExactly(db: Db, e: Edit, c: Id, id: int)
    requires RecordEdit(db, e).Ok?
    ensures var row, result := At(db.rows, e.channel, e.id), RecordEdit(db, e).value;
      && (result.1 <==> row.Some? && (row.value.part.editedAt.None? || row.value.part.editedAt.value < e.editedAt))
      && (!result.1 ==> result.0 == db)
      && (result.1 && !(c == e.channel && id == e.id) ==> At(result.0.rows, c, id) == At(db.rows, c, id))
      && (result.1 && c == e.channel && id == e.id ==>
            var after := At(result.0.rows, c, id);
            && after.Some? && after.value.channel == row.value.channel && after.value.owner == row.value.owner
            && TakesEdit(row.value.part, e, after.value.part))
  {
    var row := At(db.rows, e.channel, e.id);
    AtFinds(db.rows, e.channel, e.id);
    if row.Some? && RecordEdit(db, e).value.1 {
      ReplaceAt(db.rows, e.channel, e.id, Edited(row.value.part, e), c, id);
    }
  }
}
