/** Ingestion and edits in any order: the histories, and what every one of them keeps. */
module IngestRuns {
  import opened Json
  import opened Ordering
  import opened Telegram
  import opened Ingest

  /** The committed tables and every version of a component the history has offered to them. */
  datatype State = State(db: Db, seen: set<Delivery>)

  datatype Op = Deliver(message: Logical) | Change(edit: Edit)

  function Empty(): State { State(Db([], map[]), {}) }

  function VersionsOf(m: Logical): set<Delivery> { set p | p in m.parts :: Delivery(m.channel, m.group, p) }

  /** The version an edit makes of the component it finds. */
  function VersionOf(row: Row, e: Edit): Delivery { Delivery(row.channel, row.owner.Group(), Edited(row.part, e)) }

  /** One transaction; a refused one is rolled back, and an edit of an unknown component is not recorded. */
  function Apply(s: State, op: Op): State {
    match op
    case Deliver(m) => (match Upsert(s.db, m) case Ok(db) => State(db, s.seen + VersionsOf(m)) case Err(_) => s)
    case Change(e) =>
      match (At(s.db.rows, e.channel, e.id), RecordEdit(s.db, e))
      case (Some(row), Ok(result)) => State(result.0, s.seen + {VersionOf(row, e)})
      case _ => s
  }

  function Run(ops: seq<Op>): State {
    if ops == [] then Empty() else Apply(Run(ops[..|ops| - 1]), ops[|ops| - 1])
  }

  predicate OpOk(op: Op) { op.Deliver? ==> LogicalOk(op.message) }

  // ---------------------------------------------------------------- every history keeps the parents materialized

  lemma ApplyKeeps(s: State, op: Op)
    requires DbInv(s.db) && OpOk(op)
    ensures DbInv(Apply(s, op).db) && s.seen <= Apply(s, op).seen
    ensures exists k :: OnlyTouches(s.db.rows, Apply(s, op).db.rows, k)
  {
    match op
    case Deliver(m) =>
      if Upsert(s.db, m).Ok? {
        UpsertKeeps(s.db, m);
      } else {
        assert OnlyTouches(s.db.rows, s.db.rows, KeyOfLogical(m));
      }
    case Change(e) =>
      if RecordEdit(s.db, e).Ok? { EditKeeps(s.db, e); }
      assert OnlyTouches(s.db.rows, s.db.rows, Regular(e.channel, e.id));
  }

  /** In every committed state each parent equals the normal form of all its retained parts. */
  lemma {:induction false} ParentsAreMaterialized(ops: seq<Op>)
    requires forall i | 0 <= i < |ops| :: OpOk(ops[i])
    ensures DbInv(Run(ops).db)
  {
    if ops != [] {
      ParentsAreMaterialized(ops[..|ops| - 1]);
      ApplyKeeps(Run(ops[..|ops| - 1]), ops[|ops| - 1]);
    }
  }

  /** So each parent tells of exactly the retained parts of its key: times, text, metadata and media are theirs. */
  lemma ParentsTell(ops: seq<Op>, k: Key)
    requires (forall i | 0 <= i < |ops| :: OpOk(ops[i])) && k in Run(ops).db.parents
    ensures var db := Run(ops).db;
      && Tells(db.parents[k]) && db.parents[k].channel == k.channel && db.parents[k].group == k.Group()
      && forall p :: p in db.parents[k].parts <==>
           exists i :: 0 <= i < |db.rows| && db.rows[i].owner == k && db.rows[i].part == p
  {
    ParentsAreMaterialized(ops);
    var db := Run(ops).db;
    assert Materialized(db, k);
    MaterializedTells(db, k);
    OwnedElements(db.rows, k);
  }

  lemma MaterializedTells(db: Db, k: Key)
    requires k in db.parents && Materialized(db, k)
    ensures Tells(db.parents[k]) && db.parents[k].channel == k.channel && db.parents[k].group == k.Group()
    ensures forall p :: p in db.parents[k].parts <==> p in OwnedBy(db.rows, k)
  {
    var owned := OwnedBy(db.rows, k);
    NormalizeTells(k.channel, k.Group(), owned);
    SameElements(db.parents[k].parts, owned);
  }

  lemma ParentsStay(s: State, op: Op, k: Key)
    requires k in s.db.parents
    ensures k in Apply(s, op).db.parents
  {
  }

  lemma ApplyGrows(s: State, op: Op, k: Key)
    requires DbInv(s.db) && OpOk(op) && k in s.db.parents
    ensures k in Apply(s, op).db.parents
    ensures forall i | i in s.db.parents[k].ids :: i in Apply(s, op).db.parents[k].ids
  {
    ApplyKeeps(s, op);
    ParentsStay(s, op, k);
    GrowsBy(s.db, Apply(s, op).db, k);
  }

  lemma GrowsBy(db: Db, v: Db, k: Key)
    requires DbInv(db) && DbInv(v) && k in db.parents && k in v.parents
    requires exists touched :: OnlyTouches(db.rows, v.rows, touched)
    ensures forall i | i in db.parents[k].ids :: i in v.parents[k].ids
  {
    var touched :| OnlyTouches(db.rows, v.rows, touched);
    MembersNeverShrink(db, v, k, touched);
  }

  /** Later transactions never remove a parent or one of its members. */
  lemma {:induction false} MembersOnlyGrow(ops: seq<Op>, n: nat, k: Key)
    requires (forall i | 0 <= i < |ops| :: OpOk(ops[i])) && n <= |ops| && k in Run(ops[..n]).db.parents
    ensures k in Run(ops).db.parents
    ensures forall i | i in Run(ops[..n]).db.parents[k].ids :: i in Run(ops).db.parents[k].ids
  {
    if n == |ops| {
      assert ops[..n] == ops;
    } else {
      var init, op := ops[..|ops| - 1], ops[|ops| - 1];
      assert init[..n] == ops[..n];
      MembersOnlyGrow(init, n, k);
      ParentsAreMaterialized(init);
      ApplyGrows(Run(init), op, k);
    }
  }
}
