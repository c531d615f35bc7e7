/** Durable component rows, the parents materialized from them, and the transactions that merge deliveries into them. */
module Ingest {
  import opened Json
  import opened Ordering
  import opened Telegram

  /** A component row; its owner is the parent with that unique index key. */
  datatype Row = Row(channel: Id, owner: Key, part: Part)

  datatype Db = Db(rows: seq<Row>, parents: map<Key, Logical>)

  predicate Holds(r: Row, channel: Id, id: int) { r.channel == channel && r.part.id == id }

  /** The row of a component, by the unique index on source and Telegram message ID. */
  function At(rows: seq<Row>, channel: Id, id: int): Option<Row> {
    if rows == [] then None else if Holds(rows[0], channel, id) then Some(rows[0]) else At(rows[1..], channel, id)
  }

  function Earlier(a: Time, b: Time): Time { if a <= b then a else b }

  /** What the conflict update leaves: the incoming snapshot unless it is stale or the row has another owner. */
  function Merged(r: Row, owner: Key, p: Part): Row {
    if r.owner == owner && NotLater(r.part.editedAt, p.editedAt)
    then r.(part := p.(publishedAt := Earlier(r.part.publishedAt, p.publishedAt)))
    else r
  }

  function Put(rows: seq<Row>, owner: Key, channel: Id, p: Part): seq<Row> {
    if rows == [] then [Row(channel, owner, p)]
    else if Holds(rows[0], channel, p.id) then [Merged(rows[0], owner, p)] + rows[1..]
    else [rows[0]] + Put(rows[1..], owner, channel, p)
  }

  function PutAll(rows: seq<Row>, owner: Key, channel: Id, parts: seq<Part>): seq<Row> {
    if parts == [] then rows
    else Put(PutAll(rows, owner, channel, parts[..|parts| - 1]), owner, channel, parts[|parts| - 1])
  }

  /** The parts retained for a parent, as its reload statement finds them. */
  function OwnedBy(rows: seq<Row>, owner: Key): seq<Part> {
    if rows == [] then []
    else
      var last := rows[|rows| - 1];
      OwnedBy(rows[..|rows| - 1], owner) + if last.owner == owner then [last.part] else []
  }

  predicate OwnedElsewhere(rows: seq<Row>, m: Logical) {
    exists i | 0 <= i < |m.parts| ::
      var row := At(rows, m.channel, m.parts[i].id);
      row.None? || row.value.owner != KeyOfLogical(m)
  }

  /** `upsert_message`: the state it commits, or the error that rolls it back. */
  function Upsert(db: Db, m: Logical): Result<Db> {
    var k := KeyOfLogical(m);
    var rows := PutAll(db.rows, k, m.channel, m.parts);
    if OwnedElsewhere(rows, m) then Err("Telegram component IDs already belong to a different logical message")
    else
      match Normalize(m.channel, m.group, OwnedBy(rows, k))
      case Err(e) => Err(e)
      case Ok(recomputed) => Ok(Db(rows, db.parents[k := recomputed]))
  }

  /** A logical message as its constructor admits it. */
  predicate LogicalOk(m: Logical) {
    && m.parts != [] && StrictlyAscendingIds(m.parts) && m.primary == m.parts[0].id
    && (forall p | p in m.parts :: PartOk(p))
    && (m.group.None? ==> |m.parts| == 1)
  }

  predicate StrictlyAscendingIds(parts: seq<Part>) { forall i, j | 0 <= i < j < |parts| :: parts[i].id < parts[j].id }

  // ---------------------------------------------------------------- rows as a table

  predicate Unique(rows: seq<Row>) {
    forall i, j | 0 <= i < j < |rows| :: !(rows[i].channel == rows[j].channel && rows[i].part.id == rows[j].part.id)
  }

  lemma {:induction false} AtIndex(rows: seq<Row>, i: nat)
    requires Unique(rows) && i < |rows|
    ensures At(rows, rows[i].channel, rows[i].part.id) == Some(rows[i])
  {
    if i > 0 {
      assert !Holds(rows[0], rows[i].channel, rows[i].part.id);
      AtIndex(rows[1..], i - 1);
    }
  }

  lemma {:induction false} AtFinds(rows: seq<Row>, channel: Id, id: int)
    ensures At(rows, channel, id).Some? ==>
      At(rows, channel, id).value in rows && Holds(At(rows, channel, id).value, channel, id)
    ensures At(rows, channel, id).None? ==> forall r | r in rows :: !Holds(r, channel, id)
  {
    if rows != [] && !Holds(rows[0], channel, id) { AtFinds(rows[1..], channel, id); }
  }

  function Left(row: Option<Row>, owner: Key, channel: Id, p: Part): Row {
    if row.Some? then Merged(row.value, owner, p) else Row(channel, owner, p)
  }

  lemma {:induction false} PutAt(rows: seq<Row>, owner: Key, channel: Id, p: Part, c: Id, id: int)
    ensures At(Put(rows, owner, channel, p), c, id) ==
      if c == channel && id == p.id then Some(Left(At(rows, c, id), owner, channel, p)) else At(rows, c, id)
  {
    if rows != [] {
      var after := Put(rows, owner, channel, p);
      PutAt(rows[1..], owner, channel, p, c, id);
      assert after[1..] == if Holds(rows[0], channel, p.id) then rows[1..] else Put(rows[1..], owner, channel, p);
    }
  }

  lemma {:induction false} PutUnique(rows: seq<Row>, owner: Key, channel: Id, p: Part)
    requires Unique(rows)
    ensures Unique(Put(rows, owner, channel, p))
    ensures forall r | r in Put(rows, owner, channel, p) :: Holds(r, channel, p.id) || r in rows
  {
    if rows != [] {
      var after := Put(rows, owner, channel, p);
      PutUnique(rows[1..], owner, channel, p);
      if !Holds(rows[0], channel, p.id) {
        var rest := Put(rows[1..], owner, channel, p);
        assert after == [rows[0]] + rest;
        forall j | 0 <= j < |rest| ensures !Holds(rest[j], rows[0].channel, rows[0].part.id) {
          assert rest[j] in rest;
          if rest[j] in rows[1..] {
            var n :| 0 <= n < |rows[1..]| && rows[1..][n] == rest[j];
            assert rows[n + 1] == rest[j];
          }
        }
      }
    }
  }

  lemma {:induction false} PutAllUnique(rows: seq<Row>, owner: Key, channel: Id, parts: seq<Part>)
    requires Unique(rows)
    ensures Unique(PutAll(rows, owner, channel, parts))
  {
    if parts != [] {
      PutAllUnique(rows, owner, channel, parts[..|parts| - 1]);
      PutUnique(PutAll(rows, owner, channel, parts[..|parts| - 1]), owner, channel, parts[|parts| - 1]);
    }
  }

  /** One statement merges each component once: a component outside the message keeps its row. */
  lemma {:induction false} PutAllAt(rows: seq<Row>, owner: Key, channel: Id, parts: seq<Part>, c: Id, id: int)
    requires StrictlyAscendingIds(parts)
    ensures (c != channel || forall p | p in parts :: p.id != id) ==>
      At(PutAll(rows, owner, channel, parts), c, id) == At(rows, c, id)
    ensures forall p | p in parts && c == channel && p.id == id ::
      At(PutAll(rows, owner, channel, parts), c, id) == Some(Left(At(rows, c, id), owner, channel, p))
  {
    if parts != [] {
      var n := |parts| - 1;
      PutAllAt(rows, owner, channel, parts[..n], c, id);
      PutAt(PutAll(rows, owner, channel, parts[..n]), owner, channel, parts[n], c, id);
      assert forall p | p in parts[..n] :: p.id < parts[n].id;
      assert forall p | p in parts :: p in parts[..n] || p == parts[n];
    }
  }

  lemma {:induction false} OwnedElements(rows: seq<Row>, owner: Key)
    ensures forall p ::
      p in OwnedBy(rows, owner) <==> exists i :: 0 <= i < |rows| && rows[i].owner == owner && rows[i].part == p
  {
    if rows != [] {
      var n := |rows| - 1;
      OwnedElements(rows[..n], owner);
      forall p
        ensures p in OwnedBy(rows, owner) <==>
          exists i :: 0 <= i < |rows| && rows[i].owner == owner && rows[i].part == p
      {
        if rows[n].owner == owner && p == rows[n].part { assert rows[n].owner == owner && rows[n].part == p; }
        if p in OwnedBy(rows[..n], owner) {
          var i :| 0 <= i < n && rows[..n][i].owner == owner && rows[..n][i].part == p;
          assert rows[i].owner == owner && rows[i].part == p;
        }
      }
    }
  }

  /** An owner fits the rows it owns: same source, and the regular message of a component owns only that component. */
  predicate Fits(r: Row) { r.owner.channel == r.channel && (r.owner.Regular? ==> r.owner.id == r.part.id) }

  predicate RowsOk(rows: seq<Row>) {
    Unique(rows) && forall i | 0 <= i < |rows| :: Fits(rows[i]) && PartOk(rows[i].part)
  }

  /** The parts a parent owns, by the unique index. */
  lemma OwnedByIndex(rows: seq<Row>, owner: Key, p: Part)
    requires RowsOk(rows)
    ensures p in OwnedBy(rows, owner) <==> At(rows, owner.channel, p.id) == Some(Row(owner.channel, owner, p))
  {
    OwnedElements(rows, owner);
    AtFinds(rows, owner.channel, p.id);
    if p in OwnedBy(rows, owner) {
      var i :| 0 <= i < |rows| && rows[i].owner == owner && rows[i].part == p;
      AtIndex(rows, i);
    }
    if At(rows, owner.channel, p.id) == Some(Row(owner.channel, owner, p)) {
      var i :| 0 <= i < |rows| && rows[i] == Row(owner.channel, owner, p);
      assert rows[i].owner == owner && rows[i].part == p;
    }
  }

  lemma {:induction false} OwnedDistinct(rows: seq<Row>, owner: Key)
    requires RowsOk(rows)
    ensures DistinctKeys(ById, OwnedBy(rows, owner))
    ensures owner.Regular? ==> |OwnedBy(rows, owner)| <= 1
    ensures forall p | p in OwnedBy(rows, owner) :: PartOk(p)
  {
    if rows != [] {
      var n := |rows| - 1;
      OwnedDistinct(rows[..n], owner);
      OwnedElements(rows[..n], owner);
      if rows[n].owner == owner {
        forall p | p in OwnedBy(rows[..n], owner) ensures p.id != rows[n].part.id && owner.Album? {
          var i :| 0 <= i < n && rows[..n][i].owner == owner && rows[..n][i].part == p;
          assert Fits(rows[i]) && Fits(rows[n]);
        }
        if OwnedBy(rows[..n], owner) != [] { assert OwnedBy(rows[..n], owner)[0] in OwnedBy(rows[..n], owner); }
      }
    }
  }

  // ---------------------------------------------------------------- edits

  /** A source edit of one component. */
  datatype Edit = Edit(channel: Id, id: int, text: Option<string>, metadata: Json, media: seq<Asset>, editedAt: Time)

  function Edited(p: Part, e: Edit): Part {
    p.(text := e.text, metadata := e.metadata, media := e.media, editedAt := Some(e.editedAt))
  }

  function Replace(rows: seq<Row>, channel: Id, id: int, p: Part): seq<Row> {
    if rows == [] then []
    else if Holds(rows[0], channel, id) then [rows[0].(part := p)] + rows[1..]
    else [rows[0]] + Replace(rows[1..], channel, id, p)
  }

  predicate Stale(p: Part, e: Edit) { p.editedAt.Some? && e.editedAt <= p.editedAt.value }

  /** `record_edit`: the state it commits and whether it recorded the edit. */
  function RecordEdit(db: Db, e: Edit): Result<(Db, bool)> {
    match At(db.rows, e.channel, e.id)
    case None => Ok((db, false))
    case Some(row) =>
      if Stale(row.part, e) then Ok((db, false))
      else
        var p := Edited(row.part, e);
        var rows := Replace(db.rows, e.channel, e.id, p);
        if !PartOk(p) then Err("the edited part is not a valid component")
        else
          match Normalize(row.owner.channel, row.owner.Group(), OwnedBy(rows, row.owner))
          case Err(error) => Err(error)
          case Ok(recomputed) => Ok((Db(rows, db.parents[row.owner := recomputed]), true))
  }

  lemma {:induction false} ReplaceAt(rows: seq<Row>, channel: Id, id: int, p: Part, c: Id, i: int)
    requires p.id == id && At(rows, channel, id).Some?
    ensures At(Replace(rows, channel, id, p), c, i) ==
      if c == channel && i == id then Some(At(rows, c, i).value.(part := p)) else At(rows, c, i)
  {
    if rows != [] {
      if !Holds(rows[0], channel, id) { ReplaceAt(rows[1..], channel, id, p, c, i); }
      var after := Replace(rows, channel, id, p);
      assert after[1..] == if Holds(rows[0], channel, id) then rows[1..] else Replace(rows[1..], channel, id, p);
    }
  }

  lemma {:induction false} ReplaceRows(rows: seq<Row>, channel: Id, id: int, p: Part)
    requires p.id == id
    ensures var after := Replace(rows, channel, id, p);
      |after| == |rows| && forall i | 0 <= i < |rows| ::
        after[i] == rows[i] || (Holds(rows[i], channel, id) && after[i] == rows[i].(part := p))
  {
    if rows != [] && !Holds(rows[0], channel, id) { ReplaceRows(rows[1..], channel, id, p); }
  }

  // ---------------------------------------------------------------- the invariant

  /** A parent is what normalizing all its retained parts gives. */
  predicate Materialized(db: Db, k: Key)
    requires k in db.parents
  {
    Normalize(k.channel, k.Group(), OwnedBy(db.rows, k)) == Ok(db.parents[k])
  }

  ghost predicate DbInv(db: Db) {
    && RowsOk(db.rows)
    && (forall i | 0 <= i < |db.rows| :: db.rows[i].owner in db.parents)
    && (forall k | k in db.parents :: Materialized(db, k))
  }

  /** Every row of a component survives under its owner; new rows belong to `k`. */
  ghost predicate OnlyTouches(rows: seq<Row>, after: seq<Row>, k: Key) {
    && (forall c, i :: At(rows, c, i).Some? ==>
          At(after, c, i).Some? && At(after, c, i).value.owner == At(rows, c, i).value.owner)
    && (forall c, i :: At(after, c, i) != At(rows, c, i) ==> At(after, c, i).Some? && At(after, c, i).value.owner == k)
  }

  /** Parts of other parents are untouched, so those parents stay materialized. */
  lemma OthersMaterialized(db: Db, v: Db, k: Key, other: Key)
    requires RowsOk(db.rows) && RowsOk(v.rows) && OnlyTouches(db.rows, v.rows, k)
    requires other != k && other in db.parents && other in v.parents && v.parents[other] == db.parents[other]
    requires Materialized(db, other)
    ensures Materialized(v, other)
  {
    forall p ensures p in OwnedBy(db.rows, other) <==> p in OwnedBy(v.rows, other) {
      OwnedByIndex(db.rows, other, p);
      OwnedByIndex(v.rows, other, p);
    }
    OwnedDistinct(db.rows, other);
    OwnedDistinct(v.rows, other);
    NormalizeSame(other.channel, other.Group(), OwnedBy(db.rows, other), OwnedBy(v.rows, other));
  }

  lemma PutAllFits(rows: seq<Row>, k: Key, channel: Id, parts: seq<Part>)
    requires RowsOk(rows) && StrictlyAscendingIds(parts) && k.channel == channel
    requires forall p | p in parts :: PartOk(p) && (k.Regular? ==> k.id == p.id)
    ensures RowsOk(PutAll(rows, k, channel, parts))
  {
    var after := PutAll(rows, k, channel, parts);
    PutAllUnique(rows, k, channel, parts);
    forall i | 0 <= i < |after| ensures Fits(after[i]) && PartOk(after[i].part) {
      var c, id := after[i].channel, after[i].part.id;
      AtIndex(after, i);
      PutAllAt(rows, k, channel, parts, c, id);
      AtFinds(rows, c, id);
      var before := At(rows, c, id);
      if before.Some? { assert before.value in rows; }
      if c == channel && exists p :: p in parts && p.id == id {
        var p :| p in parts && p.id == id;
        assert after[i] == Left(before, k, channel, p);
      }
    }
  }

  lemma PutAllOnlyTouches(rows: seq<Row>, k: Key, channel: Id, parts: seq<Part>)
    requires StrictlyAscendingIds(parts)
    ensures OnlyTouches(rows, PutAll(rows, k, channel, parts), k)
  {
    var after := PutAll(rows, k, channel, parts);
    forall c, i
      ensures At(rows, c, i).Some? ==>
        At(after, c, i).Some? && At(after, c, i).value.owner == At(rows, c, i).value.owner
      ensures At(after, c, i) != At(rows, c, i) ==> At(after, c, i).Some? && At(after, c, i).value.owner == k
    {
      PutAllAt(rows, k, channel, parts, c, i);
      if c == channel && exists p :: p in parts && p.id == i {
        var p :| p in parts && p.id == i;
        assert At(after, c, i) == Some(Left(At(rows, c, i), k, channel, p));
      }
    }
  }

  lemma OwnersAreParents(db: Db, v: Db, k: Key)
    requires DbInv(db) && Unique(v.rows) && OnlyTouches(db.rows, v.rows, k) && k in v.parents
    requires forall x | x in db.parents :: x in v.parents
    ensures forall i | 0 <= i < |v.rows| :: v.rows[i].owner in v.parents
  {
    forall i | 0 <= i < |v.rows| ensures v.rows[i].owner in v.parents {
      AtIndex(v.rows, i);
      AtFinds(db.rows, v.rows[i].channel, v.rows[i].part.id);
      if v.rows[i].owner != k { assert v.rows[i] in db.rows; }
    }
  }

  lemma UpsertKeeps(db: Db, m: Logical)
    requires DbInv(db) && LogicalOk(m) && Upsert(db, m).Ok?
    ensures DbInv(Upsert(db, m).value)
    ensures OnlyTouches(db.rows, Upsert(db, m).value.rows, KeyOfLogical(m))
  {
    var k, v := KeyOfLogical(m), Upsert(db, m).value;
    PutAllFits(db.rows, k, m.channel, m.parts);
    PutAllOnlyTouches(db.rows, k, m.channel, m.parts);
    OwnersAreParents(db, v, k);
    forall x | x in v.parents ensures Materialized(v, x) {
      if x != k { OthersMaterialized(db, v, k, x); }
    }
  }

  lemma EditKeeps(db: Db, e: Edit)
    requires DbInv(db) && RecordEdit(db, e).Ok?
    ensures DbInv(RecordEdit(db, e).value.0)
    ensures RecordEdit(db, e).value.1 ==>
      At(db.rows, e.channel, e.id).Some?
        && OnlyTouches(db.rows, RecordEdit(db, e).value.0.rows, At(db.rows, e.channel, e.id).value.owner)
  {
    var v := RecordEdit(db, e).value.0;
    if RecordEdit(db, e).value.1 {
      var row := At(db.rows, e.channel, e.id).value;
      AtFinds(db.rows, e.channel, e.id);
      assert PartOk(row.part);
      EditTouches(db.rows, e.channel, e.id, Edited(row.part, e));
      ReplaceOk(db.rows, e.channel, e.id, Edited(row.part, e));
      OwnersAreParents(db, v, row.owner);
      forall x | x in v.parents ensures Materialized(v, x) {
        if x != row.owner { OthersMaterialized(db, v, row.owner, x); }
      }
    }
  }

  lemma EditTouches(rows: seq<Row>, channel: Id, id: int, p: Part)
    requires p.id == id && At(rows, channel, id).Some?
    ensures OnlyTouches(rows, Replace(rows, channel, id, p), At(rows, channel, id).value.owner)
  {
    var after := Replace(rows, channel, id, p);
    forall c, i
      ensures At(after, c, i) == if c == channel && i == id then Some(At(rows, c, i).value.(part := p))
        else At(rows, c, i)
    {
      ReplaceAt(rows, channel, id, p, c, i);
    }
  }

  lemma ReplaceOk(rows: seq<Row>, channel: Id, id: int, p: Part)
    requires RowsOk(rows) && p.id == id && PartOk(p)
    ensures RowsOk(Replace(rows, channel, id, p))
  {
    ReplaceRows(rows, channel, id, p);
    var after := Replace(rows, channel, id, p);
    forall i | 0 <= i < |after| ensures Fits(after[i]) && PartOk(after[i].part) {
      assert Fits(rows[i]) && PartOk(rows[i].part);
    }
  }

  /** The member set of a parent never shrinks. */
  lemma MembersNeverShrink(db: Db, v: Db, k: Key, touched: Key)
    requires DbInv(db) && DbInv(v) && OnlyTouches(db.rows, v.rows, touched) && k in db.parents && k in v.parents
    ensures forall i | i in db.parents[k].ids :: i in v.parents[k].ids
  {
    MembersAreOwned(db, k);
    MembersAreOwned(v, k);
    OwnersStay(db.rows, v.rows, touched, k);
  }

  lemma OwnersStay(rows: seq<Row>, after: seq<Row>, touched: Key, k: Key)
    requires OnlyTouches(rows, after, touched)
    ensures forall i | At(rows, k.channel, i).Some? && At(rows, k.channel, i).value.owner == k ::
      At(after, k.channel, i).Some? && At(after, k.channel, i).value.owner == k
  {
  }

  lemma OwnedFits(rows: seq<Row>, k: Key, p: Part)
    requires RowsOk(rows) && p in OwnedBy(rows, k)
    ensures k.Regular? ==> p.id == k.id
  {
    OwnedElements(rows, k);
    var i :| 0 <= i < |rows| && rows[i].owner == k && rows[i].part == p;
    assert Fits(rows[i]);
  }

  lemma PartsAreOwned(db: Db, k: Key)
    requires DbInv(db) && k in db.parents
    ensures forall p :: p in db.parents[k].parts <==> At(db.rows, k.channel, p.id) == Some(Row(k.channel, k, p))
    ensures db.parents[k].ids == Ids(db.parents[k].parts) && db.parents[k].parts != []
    ensures KeyOfLogical(db.parents[k]) == k
  {
    var owned, m := OwnedBy(db.rows, k), db.parents[k];
    assert Materialized(db, k);
    OwnedDistinct(db.rows, k);
    IdOrder();
    SortStrict(ById, owned);
    forall p ensures p in m.parts <==> At(db.rows, k.channel, p.id) == Some(Row(k.channel, k, p)) {
      OwnedByIndex(db.rows, k, p);
    }
    assert m.parts[0] in m.parts;
    OwnedFits(db.rows, k, m.parts[0]);
  }

  lemma MembersAreOwned(db: Db, k: Key)
    requires DbInv(db) && k in db.parents
    ensures forall i ::
      i in db.parents[k].ids <==> At(db.rows, k.channel, i).Some? && At(db.rows, k.channel, i).value.owner == k
  {
    var m := db.parents[k];
    PartsAreOwned(db, k);
    forall i | i in m.ids ensures At(db.rows, k.channel, i).Some? && At(db.rows, k.channel, i).value.owner == k {
      var n :| 0 <= n < |m.ids| && m.ids[n] == i;
      assert m.parts[n] in m.parts && m.parts[n].id == i;
    }
    forall i | At(db.rows, k.channel, i).Some? && At(db.rows, k.channel, i).value.owner == k ensures i in m.ids {
      AtFinds(db.rows, k.channel, i);
      var p := At(db.rows, k.channel, i).value.part;
      assert p in m.parts;
      var n :| 0 <= n < |m.parts| && m.parts[n] == p;
      assert m.ids[n] == i;
    }
  }

  // ---------------------------------------------------------------- the repository

  lemma {:induction false} PutAtIndex(rows: seq<Row>, n: nat, owner: Key, channel: Id, p: Part)
    requires n <= |rows| && forall i | 0 <= i < n :: !Holds(rows[i], channel, p.id)
    ensures n < |rows| && Holds(rows[n], channel, p.id) ==>
      Put(rows, owner, channel, p) == rows[n := Merged(rows[n], owner, p)]
    ensures n == |rows| ==> Put(rows, owner, channel, p) == rows + [Row(channel, owner, p)]
  {
    if n > 0 {
      PutAtIndex(rows[1..], n - 1, owner, channel, p);
    }
  }

  lemma {:induction false} AtIs(rows: seq<Row>, n: nat, channel: Id, id: int)
    requires n <= |rows| && forall i | 0 <= i < n :: !Holds(rows[i], channel, id)
    ensures n < |rows| && Holds(rows[n], channel, id) ==> At(rows, channel, id) == Some(rows[n])
    ensures n < |rows| && Holds(rows[n], channel, id) ==>
      forall p :: Replace(rows, channel, id, p) == rows[n := rows[n].(part := p)]
    ensures n == |rows| ==> At(rows, channel, id) == None
  {
    if n > 0 { AtIs(rows[1..], n - 1, channel, id); }
  }

  class Repository {
    var rows: seq<Row>
    var parents: map<Key, Logical>

    ghost function State(): Db
      reads this
    {
      Db(rows, parents)
    }

    /** The index of a component's row, or the number of rows. */
    method Locate(channel: Id, id: int) returns (n: nat)
      ensures n <= |rows| && (forall i | 0 <= i < n :: !Holds(rows[i], channel, id))
      ensures n < |rows| ==> Holds(rows[n], channel, id)
    {
      n := 0;
      while n < |rows| && !Holds(rows[n], channel, id)
        invariant n <= |rows| && forall i | 0 <= i < n :: !Holds(rows[i], channel, id)
      {
        n := n + 1;
      }
    }

    method UpsertPart(owner: Key, channel: Id, p: Part)
      modifies this`rows
      ensures rows == Put(old(rows), owner, channel, p)
    {
      var n := Locate(channel, p.id);
      PutAtIndex(rows, n, owner, channel, p);
      if n == |rows| {
        rows := rows + [Row(channel, owner, p)];
      } else if rows[n].owner == owner && NotLater(rows[n].part.editedAt, p.editedAt) {
        rows := rows[n := rows[n].(part := p.(publishedAt := Earlier(rows[n].part.publishedAt, p.publishedAt)))];
      }
    }

    method Retained(owner: Key) returns (parts: seq<Part>)
      ensures parts == OwnedBy(rows, owner)
    {
      parts := [];
      for n := 0 to |rows|
        invariant parts == OwnedBy(rows[..n], owner)
      {
        assert rows[..n + 1][..n] == rows[..n];
        if rows[n].owner == owner { parts := parts + [rows[n].part]; }
      }
      assert rows[..|rows|] == rows;
    }

    method Owns(owner: Key, channel: Id, parts: seq<Part>) returns (ok: bool)
      ensures ok <==>
        forall i | 0 <= i < |parts| ::
          At(rows, channel, parts[i].id).Some? && At(rows, channel, parts[i].id).value.owner == owner
    {
      for n := 0 to |parts|
        invariant forall i | 0 <= i < n ::
          At(rows, channel, parts[i].id).Some? && At(rows, channel, parts[i].id).value.owner == owner
      {
        var at := Locate(channel, parts[n].id);
        AtIs(rows, at, channel, parts[n].id);
        if at == |rows| || rows[at].owner != owner { return false; }
      }
      ok := true;
    }

    /** `upsert_message`: one transaction, rolled back when it fails. */
    method UpsertMessage(m: Logical) returns (committed: bool)
      modifies this
      ensures committed <==> Upsert(old(State()), m).Ok?
      ensures State() == if committed then Upsert(old(State()), m).value else old(State())
    {
      var owner := KeyOfLogical(m);
      var before := rows;
      for n := 0 to |m.parts|
        invariant rows == PutAll(before, owner, m.channel, m.parts[..n])
        invariant parents == old(parents)
      {
        assert m.parts[..n + 1][..n] == m.parts[..n];
        UpsertPart(owner, m.channel, m.parts[n]);
      }
      assert m.parts[..|m.parts|] == m.parts;
      var ours := Owns(owner, m.channel, m.parts);
      if !ours {
        rows := before;
        return false;
      }
      var retained := Retained(owner);
      var recomputed := Normalize(m.channel, m.group, retained);
      if recomputed.Err? {
        rows := before;
        return false;
      }
      parents := parents[owner := recomputed.value];
      committed := true;
    }

    /** `record_edit`; no value when the transaction fails and is rolled back. */
    method RecordSourceEdit(e: Edit) returns (recorded: Option<bool>)
      modifies this
      ensures recorded.Some? <==> RecordEdit(old(State()), e).Ok?
      ensures recorded.Some? ==> (State(), recorded.value) == RecordEdit(old(State()), e).value
      ensures recorded.None? ==> State() == old(State())
    {
      var n := Locate(e.channel, e.id);
      AtIs(rows, n, e.channel, e.id);
      if n == |rows| { return Some(false); }
      var row := rows[n];
      if row.part.editedAt.Some? && e.editedAt <= row.part.editedAt.value { return Some(false); }
      var part := row.part.(text := e.text, metadata := e.metadata, media := e.media, editedAt := Some(e.editedAt));
      if !PartOk(part) { return None; }
      var before := rows;
      rows := rows[n := row.(part := part)];
      var retained := Retained(row.owner);
      var recomputed := Normalize(row.owner.channel, row.owner.Group(), retained);
      if recomputed.Err? {
        rows := before;
        return None;
      }
      parents := parents[row.owner := recomputed.value];
      recorded := Some(true);
    }
  }
}
